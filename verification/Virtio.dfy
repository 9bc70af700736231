/** The split-queue driver of kernel/virtio_disk.c (sections 2.6 and 5.2.6 of VirtIO 1.1), with a conforming
    device that takes the available chains in order and completes the ones it has in any order. Each method
    is one critical section under vdisk_lock, or one step of the device. */
module Virtio {
  const NUM := 8           // descriptors, a power of two
  const WRAP := 0x1_0000   // the ring indices are 16 bits wide

  type Block = seq<int>

  /** What a descriptor points at: a request header in ops[], the data of a buffer, or a status byte in info[]. */
  datatype Addr = Nowhere | Header(i: int) | Data(b: int) | Status(i: int)

  /** A descriptor; `fill` is VRING_DESC_F_WRITE, which allows the device to write there, and `more` is
      VRING_DESC_F_NEXT. */
  datatype Desc = Desc(addr: Addr, fill: bool, more: bool, next: int)

  const NO_DESC := Desc(Nowhere, false, false, 0)

  /** struct virtio_blk_req. */
  datatype Request = Request(write: bool, sector: int)

  datatype Phase =
    | Queued(k: nat)   // entry k of the available ring, not taken by the device yet
    | AtDevice
    | Used(k: nat)     // entry k of the used ring, not seen by the driver yet
    | Done             // b->disk cleared

  /** A request in flight, under the number of its first descriptor. */
  datatype Flight = Flight(d1: int, d2: int, buf: int, req: Request, phase: Phase)

  // ------------------------------------------------------------- invariants

  /** The chains in flight are disjoint triples, and free[] marks exactly the other descriptors. `owner` names
      the chain each descriptor is in. */
  ghost predicate Owned(free: seq<bool>, owner: seq<int>, fl: map<int, Flight>) {
    && |free| == |owner| == NUM
    && (forall i {:trigger owner[i]} :: 0 <= i < NUM ==>
          && (free[i] <==> owner[i] == -1)
          && (owner[i] != -1 ==> owner[i] in fl && (i == owner[i] || i == fl[owner[i]].d1 || i == fl[owner[i]].d2)))
    && (forall h {:trigger fl[h]} :: h in fl ==>
          && 0 <= h < NUM && 0 <= fl[h].d1 < NUM && 0 <= fl[h].d2 < NUM
          && h != fl[h].d1 && h != fl[h].d2 && fl[h].d1 != fl[h].d2
          && owner[h] == owner[fl[h].d1] == owner[fl[h].d2] == h)
  }

  /** The three descriptors of a request: its header, the data, which the device writes if it is to read the disk, and
      the status, which the device writes. */
  predicate Chained(desc: seq<Desc>, h: int, d1: int, d2: int, b: int, req: Request)
    requires 0 <= h < |desc| && 0 <= d1 < |desc| && 0 <= d2 < |desc|
  {
    desc[h] == Desc(Header(h), false, true, d1) && desc[d1] == Desc(Data(b), !req.write, true, d2)
      && desc[d2] == Desc(Status(h), true, false, 0)
  }

  /** The descriptor table and the request headers spell out the requests in flight. */
  ghost predicate Spelled(desc: seq<Desc>, ops: seq<Request>, fl: map<int, Flight>) {
    && |desc| == |ops| == NUM
    && forall h {:trigger fl[h]} :: h in fl && 0 <= h < NUM && 0 <= fl[h].d1 < NUM && 0 <= fl[h].d2 < NUM ==>
         Chained(desc, h, fl[h].d1, fl[h].d2, fl[h].buf, fl[h].req) && ops[h] == fl[h].req
  }

  /** info[] names the buffer of each request, which is marked as being at the disk until it is done, and
      has no other request. */
  ghost predicate Informed(info: seq<int>, status: seq<int>, bdisk: seq<bool>, fl: map<int, Flight>) {
    && |info| == |status| == NUM
    && (forall h {:trigger fl[h]} :: h in fl && 0 <= h < NUM ==>
          && 0 <= fl[h].buf < |bdisk| && info[h] == fl[h].buf && (bdisk[fl[h].buf] <==> fl[h].phase != Done)
          && (fl[h].phase.Used? || fl[h].phase.Done? ==> status[h] == 0))
    && (forall h, g {:trigger fl[h], fl[g]} :: h in fl && g in fl && h != g ==> fl[h].buf != fl[g].buf)
  }

  /** A ring holds the entries lo to hi - 1 of a log. */
  ghost predicate Holds(ring: seq<int>, log: seq<int>, lo: nat) {
    |ring| == NUM && lo <= |log| && forall k {:trigger log[k]} :: lo <= k < |log| ==> ring[k % NUM] == log[k]
  }

  /** The entries from lo on of a log are the requests in the given phase, each once. */
  ghost predicate Listed(log: seq<int>, lo: nat, fl: map<int, Flight>, queue: bool) {
    && (forall k {:trigger log[k]} ::
         lo <= k < |log| ==> log[k] in fl && fl[log[k]].phase == if queue then Queued(k) else Used(k))
    && (forall h {:trigger fl[h]} :: h in fl && (if queue then fl[h].phase.Queued? else fl[h].phase.Used?) ==>
          lo <= fl[h].phase.k < |log| && log[fl[h].phase.k] == h)
  }

  function Triple(h: int, f: Flight): set<int> { {h, f.d1, f.d2} }

  /** In plain terms: no descriptor is in two chains, and a descriptor is free exactly if it is in none. */
  lemma DisjointTriples(free: seq<bool>, owner: seq<int>, fl: map<int, Flight>, h: int, g: int, i: nat)
    requires Owned(free, owner, fl) && i < NUM
    ensures h in fl && g in fl && h != g ==> Triple(h, fl[h]) !! Triple(g, fl[g])
    ensures h in fl ==> |Triple(h, fl[h])| == 3
    ensures free[i] <==> forall k {:trigger Triple(k, fl[k])} :: k in fl ==> i !in Triple(k, fl[k])
  {
    if h in fl {
      var f := fl[h];
      assert Triple(h, f) == {h} + {f.d1} + {f.d2};
    }
    if g in fl {
      var f := fl[g];
    }
    var o := owner[i];
    if o != -1 {
      assert i in Triple(o, fl[o]);
    }
  }

  // ------------------------------------------------------------- pigeonholes

  lemma {:induction false} Pigeons(s: seq<int>, n: nat, x: int)
    requires 0 <= x < n && (forall i {:trigger s[i]} :: 0 <= i < |s| ==> 0 <= s[i] < n && s[i] != x)
    requires forall i, j {:trigger s[i], s[j]} :: 0 <= i < j < |s| ==> s[i] != s[j]
    ensures |s| < n
  {
    var all := Below(n);
    var seen := set i | 0 <= i < |s| :: s[i];
    Distinct(s);
    assert seen <= all - {x};
    Within(seen, all - {x});
  }

  function Below(n: nat): (r: set<int>)
    ensures |r| == n && forall i :: i in r <==> 0 <= i < n
  {
    if n == 0 then {} else Below(n - 1) + {n - 1}
  }

  lemma {:induction false} Distinct(s: seq<int>)
    requires forall i, j {:trigger s[i], s[j]} :: 0 <= i < j < |s| ==> s[i] != s[j]
    ensures |set i | 0 <= i < |s| :: s[i]| == |s|
  {
    if s != [] {
      var t := s[..|s| - 1];
      Distinct(t);
      assert (set i | 0 <= i < |s| :: s[i]) == (set i | 0 <= i < |t| :: t[i]) + {s[|s| - 1]};
    }
  }

  lemma Within(a: set<int>, b: set<int>)
    requires a <= b
    ensures |a| <= |b|
  {
    assert b == a + (b - a);
  }

  /** Fewer than NUM entries are outstanding while a request outside the list is in flight. */
  lemma RoomLeft(log: seq<int>, lo: nat, owner: seq<int>, free: seq<bool>, fl: map<int, Flight>, queue: bool, h: int)
    requires Owned(free, owner, fl) && Listed(log, lo, fl, queue) && lo <= |log| && 0 <= h < NUM
    requires h in fl ==> !(if queue then fl[h].phase.Queued? else fl[h].phase.Used?)
    ensures |log| - lo < NUM
  {
    var s := log[lo..];
    forall i {:trigger s[i]} | 0 <= i < |s| ensures 0 <= s[i] < NUM && s[i] != h {
      assert s[i] == log[lo + i];
      var f := fl[log[lo + i]];
    }
    forall i, j {:trigger s[i], s[j]} | 0 <= i < j < |s| ensures s[i] != s[j] {
      assert fl[log[lo + i]].phase != fl[log[lo + j]].phase;
    }
    Pigeons(s, NUM, h);
  }

  /** Appending to a ring with room left overwrites no outstanding entry. */
  lemma Append(ring: seq<int>, log: seq<int>, lo: nat, h: int)
    requires Holds(ring, log, lo) && |log| - lo < NUM
    ensures Holds(ring[|log| % NUM := h], log + [h], lo)
  {
    var log' := log + [h];
    var ring' := ring[|log| % NUM := h];
    forall k {:trigger log'[k]} | lo <= k < |log'| ensures ring'[k % NUM] == log'[k] {
      if k < |log| {
        assert log[k] == log'[k] && k % NUM != |log| % NUM;
      }
    }
  }

  // ------------------------------------------- changes that keep the parts

  /** Three free descriptors become a chain. */
  lemma OwnedNew(free: seq<bool>, owner: seq<int>, fl: map<int, Flight>, h: nat, f: Flight)
    requires Owned(free, owner, fl) && h < NUM && 0 <= f.d1 < NUM && 0 <= f.d2 < NUM
    requires h != f.d1 && h != f.d2 && f.d1 != f.d2 && free[h] && free[f.d1] && free[f.d2]
    ensures h !in fl
    ensures Owned(free[h := false][f.d1 := false][f.d2 := false], owner[h := h][f.d1 := h][f.d2 := h], fl[h := f])
  {
    var o := owner[h];
    var o1, o2 := owner[f.d1], owner[f.d2];
  }

  /** The chain of h is freed. */
  lemma OwnedGone(free: seq<bool>, owner: seq<int>, fl: map<int, Flight>, h: nat)
    requires Owned(free, owner, fl) && h in fl
    ensures var f := fl[h];
            && h < NUM && 0 <= f.d1 < NUM && 0 <= f.d2 < NUM && !free[h] && !free[f.d1] && !free[f.d2]
            && Owned(free[h := true][f.d1 := true][f.d2 := true], owner[h := -1][f.d1 := -1][f.d2 := -1], fl - {h})
  {
    var f := fl[h];
    var o, o1, o2 := owner[h], owner[f.d1], owner[f.d2];
    var fl' := fl - {h};
    var owner' := owner[h := -1][f.d1 := -1][f.d2 := -1];
    forall g {:trigger fl'[g]} | g in fl' ensures owner'[g] == owner'[fl'[g].d1] == owner'[fl'[g].d2] == g {
      var e := fl[g];
    }
  }

  lemma OwnedPhase(free: seq<bool>, owner: seq<int>, fl: map<int, Flight>, h: int, p: Phase)
    requires Owned(free, owner, fl) && h in fl
    ensures Owned(free, owner, fl[h := fl[h].(phase := p)])
  {
    var f := fl[h];
  }

  lemma SpelledPhase(desc: seq<Desc>, ops: seq<Request>, fl: map<int, Flight>, h: int, p: Phase)
    requires Spelled(desc, ops, fl) && h in fl
    ensures Spelled(desc, ops, fl[h := fl[h].(phase := p)])
  {
    var f := fl[h];
  }

  /** Descriptors that are in no other chain are rewritten. */
  lemma SpelledKept(desc: seq<Desc>, ops: seq<Request>, desc': seq<Desc>, ops': seq<Request>, free: seq<bool>,
      owner: seq<int>, fl: map<int, Flight>)
    requires Spelled(desc, ops, fl) && Owned(free, owner, fl) && |desc'| == |ops'| == NUM
    requires forall i {:trigger owner[i]} :: 0 <= i < NUM && owner[i] != -1 ==> desc'[i] == desc[i] && ops'[i] == ops[i]
    ensures Spelled(desc', ops', fl)
  {
    forall h {:trigger fl[h]} | h in fl ensures owner[h] == h && owner[fl[h].d1] == h && owner[fl[h].d2] == h {
      var f := fl[h];
    }
  }

  lemma ListedPhase(log: seq<int>, lo: nat, fl: map<int, Flight>, queue: bool, h: int, p: Phase)
    requires Listed(log, lo, fl, queue) && h in fl
    requires !(if queue then fl[h].phase.Queued? || p.Queued? else fl[h].phase.Used? || p.Used?)
    ensures Listed(log, lo, fl[h := fl[h].(phase := p)], queue)
  {
    var fl' := fl[h := fl[h].(phase := p)];
    forall k {:trigger log[k]} | lo <= k < |log|
      ensures log[k] in fl' && fl'[log[k]].phase == if queue then Queued(k) else Used(k) {
      var f := fl[log[k]];
    }
    forall g {:trigger fl'[g]} | g in fl' && (if queue then fl'[g].phase.Queued? else fl'[g].phase.Used?)
      ensures lo <= fl'[g].phase.k < |log| && log[fl'[g].phase.k] == g
    {
      var f := fl[g];
    }
  }

  lemma ListedGone(log: seq<int>, lo: nat, fl: map<int, Flight>, queue: bool, h: int)
    requires Listed(log, lo, fl, queue) && h in fl && fl[h].phase == Done
    ensures Listed(log, lo, fl - {h}, queue)
  {
    var fl' := fl - {h};
    forall k {:trigger log[k]} | lo <= k < |log|
      ensures log[k] in fl' && fl'[log[k]].phase == if queue then Queued(k) else Used(k) {
      var f := fl[log[k]];
    }
    forall g {:trigger fl'[g]} | g in fl' && (if queue then fl'[g].phase.Queued? else fl'[g].phase.Used?)
      ensures lo <= fl'[g].phase.k < |log| && log[fl'[g].phase.k] == g
    {
      var f := fl[g];
    }
  }

  /** A request enters a list at its end. */
  lemma ListedAppend(log: seq<int>, lo: nat, fl: map<int, Flight>, queue: bool, h: int, f: Flight)
    requires Listed(log, lo, fl, queue) && lo <= |log| && f.phase == (if queue then Queued(|log|) else Used(|log|))
    requires h in fl ==> !(if queue then fl[h].phase.Queued? else fl[h].phase.Used?)
    ensures Listed(log + [h], lo, fl[h := f], queue)
  {
    var fl', log' := fl[h := f], log + [h];
    forall k {:trigger log'[k]} | lo <= k < |log'|
      ensures log'[k] in fl' && fl'[log'[k]].phase == if queue then Queued(k) else Used(k) {
      if k < |log| {
        assert log'[k] == log[k];
        var e := fl[log[k]];
      }
    }
    forall g {:trigger fl'[g]} | g in fl' && (if queue then fl'[g].phase.Queued? else fl'[g].phase.Used?)
      ensures lo <= fl'[g].phase.k < |log'| && log'[fl'[g].phase.k] == g
    {
      if g != h {
        var e := fl[g];
      }
    }
  }

  /** The first request of a list leaves it. */
  lemma ListedNext(log: seq<int>, lo: nat, fl: map<int, Flight>, queue: bool, p: Phase)
    requires Listed(log, lo, fl, queue) && lo < |log| && !(if queue then p.Queued? else p.Used?)
    ensures log[lo] in fl && fl[log[lo]].phase == if queue then Queued(lo) else Used(lo)
    ensures Listed(log, lo + 1, fl[log[lo] := fl[log[lo]].(phase := p)], queue)
  {
    var h := log[lo];
    var fl' := fl[h := fl[h].(phase := p)];
    forall k {:trigger log[k]} | lo + 1 <= k < |log|
      ensures log[k] in fl' && fl'[log[k]].phase == if queue then Queued(k) else Used(k) {
      var f := fl[log[k]];
    }
    forall g {:trigger fl'[g]} | g in fl' && (if queue then fl'[g].phase.Queued? else fl'[g].phase.Used?)
      ensures lo + 1 <= fl'[g].phase.k < |log| && log[fl'[g].phase.k] == g
    {
      var f := fl[g];
    }
  }

  lemma HoldsNext(ring: seq<int>, log: seq<int>, lo: nat)
    requires Holds(ring, log, lo) && lo < |log|
    ensures ring[lo % NUM] == log[lo] && Holds(ring, log, lo + 1)
  {
    var h := log[lo];
  }

  // ------------------------------------------------------------------ indices

  /** A count as a 16-bit index. */
  function Wrapped(c: nat): nat { c % WRAP }

  /** NUM divides 2^16, so a wrapped index selects the same ring entry. */
  lemma SameEntry(c: nat)
    ensures Wrapped(c) % NUM == c % NUM
  {
  }

  /** With at most NUM entries outstanding, wrapped indices are equal only if none is. */
  lemma SameIndex(a: nat, b: nat)
    requires a <= b <= a + NUM
    ensures Wrapped(a) == Wrapped(b) <==> a == b
  {
  }

  lemma NextIndex(c: nat)
    ensures (Wrapped(c) + 1) % WRAP == Wrapped(c + 1)
  {
  }

  lemma Outstanding(log: seq<int>, lo: nat, owner: seq<int>, free: seq<bool>, fl: map<int, Flight>, queue: bool)
    requires Owned(free, owner, fl) && Listed(log, lo, fl, queue) && lo <= |log|
    ensures |log| - lo <= NUM
  {
    var s := log[lo..];
    forall i {:trigger s[i]} | 0 <= i < |s| ensures 0 <= s[i] < NUM {
      assert s[i] == log[lo + i];
      var f := fl[log[lo + i]];
    }
    forall i, j {:trigger s[i], s[j]} | 0 <= i < j < |s| ensures s[i] != s[j] {
      assert fl[log[lo + i]].phase != fl[log[lo + j]].phase;
    }
    var seen := set i | 0 <= i < |s| :: s[i];
    Distinct(s);
    assert seen <= Below(NUM);
    Within(seen, Below(NUM));
  }

  class Driver {
    var free: seq<bool>
    var desc: seq<Desc>
    var ops: seq<Request>
    var info: seq<int>        // info[].b, -1 for none
    var status: seq<int>      // info[].status
    var availRing: seq<int>
    var availIdx: nat         // avail->idx
    var usedRing: seq<int>
    var usedDev: nat          // used->idx
    var usedIdx: nat          // used_idx
    var bdisk: seq<bool>      // b->disk of every buffer
    var bdata: seq<Block>     // b->data

    var devIdx: nat           // the device's place in the available ring
    var store: map<int, Block>

    ghost var owner: seq<int>
    ghost var fl: map<int, Flight>
    ghost var availLog: seq<int>   // all chains made available so far
    ghost var devCount: nat        // how many of them the device has taken
    ghost var usedLog: seq<int>    // all chains completed so far
    ghost var intrCount: nat       // how many of them the driver has seen

    ghost predicate Rings()
      reads this
    {
      && Holds(availRing, availLog, devCount) && Holds(usedRing, usedLog, intrCount)
      && availIdx == Wrapped(|availLog|) && devIdx == Wrapped(devCount) && usedDev == Wrapped(|usedLog|)
      && usedIdx == Wrapped(intrCount)
    }

    ghost predicate Valid()
      reads this
    {
      && Whole(free, owner, desc, ops, info, status, bdisk, fl, availLog, devCount, usedLog, intrCount)
      && Rings() && |bdata| == |bdisk|
    }

    /** virtio_disk_init: all descriptors are free, and the rings empty. */
    constructor (bufs: seq<Block>, store: map<int, Block>)
      ensures Valid() && fl == map[] && bdata == bufs && this.store == store && (forall i :: 0 <= i < NUM ==> free[i])
    {
      free, desc, ops := seq(NUM, i => true), seq(NUM, i => NO_DESC), seq(NUM, i => Request(false, 0));
      info, status := seq(NUM, i => -1), seq(NUM, i => 0);
      availRing, availIdx, usedRing, usedDev, usedIdx, devIdx := seq(NUM, i => 0), 0, seq(NUM, i => 0), 0, 0, 0;
      bdisk, bdata, this.store := seq(|bufs|, i => false), bufs, store;
      owner, fl, availLog, devCount, usedLog, intrCount := seq(NUM, i => -1), map[], [], 0, [], 0;
    }

    // --------------------------------------------------------- descriptors

    /** alloc_desc: the lowest free descriptor, -1 if there is none. */
    method AllocDesc() returns (i: int)
      requires |free| == NUM
      modifies this`free
      ensures i == -1 ==> free == old(free) && forall j :: 0 <= j < NUM ==> !free[j]
      ensures i != -1 ==> 0 <= i < NUM && old(free)[i] && free == old(free)[i := false] && forall j ::
                0 <= j < i ==> !free[j]
    {
      i := 0;
      while i < NUM
        invariant 0 <= i <= NUM && free == old(free) && forall j :: 0 <= j < i ==> !free[j]
      {
        if free[i] {
          free := free[i := false];
          return;
        }
        i := i + 1;
      }
      i := -1;
    }

    /** free_desc. A false result stands for its panics. */
    method FreeDesc(i: nat) returns (ok: bool)
      requires |free| == |desc| == NUM
      modifies this`free, this`desc
      ensures ok <==> i < NUM && !old(free)[i]
      ensures ok ==> free == old(free)[i := true] && desc == old(desc)[i := NO_DESC]
      ensures !ok ==> unchanged(this)
    {
      if i >= NUM || free[i] {
        return false;
      }
      desc := desc[i := NO_DESC];
      free := free[i := true];
      ok := true;
    }

    /** free_chain, on a chain of three descriptors that are in use: its panics are unreachable. */
    method FreeChain(i0: nat, ghost i1: nat, ghost i2: nat)
      requires |free| == |desc| == NUM && i0 < NUM && i1 < NUM && i2 < NUM && i0 != i1 && i0 != i2 && i1 != i2
      requires !free[i0] && !free[i1] && !free[i2]
      requires desc[i0].more && desc[i0].next == i1 && desc[i1].more && desc[i1].next == i2 && !desc[i2].more
      modifies this`free, this`desc
      ensures free == old(free)[i0 := true][i1 := true][i2 := true]
      ensures desc == old(desc)[i0 := NO_DESC][i1 := NO_DESC][i2 := NO_DESC]
    {
      var i: int := i0;
      ghost var k := 0;
      while true
        invariant 0 <= k <= 2 && |free| == |desc| == NUM
        invariant i == if k == 0 then i0 else if k == 1 then i1 else i2
        invariant k == 0 ==> free == old(free) && desc == old(desc)
        invariant k == 1 ==> free == old(free)[i0 := true] && desc == old(desc)[i0 := NO_DESC]
        invariant k == 2 ==>
                    free == old(free)[i0 := true][i1 := true] && desc == old(desc)[i0 := NO_DESC][i1 := NO_DESC]
        decreases 2 - k
      {
        var flag, nxt := desc[i].more, desc[i].next;
        var ok := FreeDesc(i);
        assert ok;
        if flag {
          i := nxt;
          k := k + 1;
        } else {
          break;
        }
      }
    }

    /** alloc3_desc: three different free descriptors, or none. */
    method Alloc3Desc() returns (ok: bool, idx: seq<int>)
      requires |free| == |desc| == NUM
      modifies this`free, this`desc
      ensures |desc| == NUM && |idx| == 3 && forall x :: 0 <= x < NUM && !old(free)[x] ==> desc[x] == old(desc)[x]
      ensures !ok ==> free == old(free) && TooFew(free)
      ensures ok ==> idx[0] != idx[1] && idx[0] != idx[2] && idx[1] != idx[2]
      ensures ok ==> (forall k :: 0 <= k < 3 ==> 0 <= idx[k] < NUM && old(free)[idx[k]])
                     && free == old(free)[idx[0] := false][idx[1] := false][idx[2] := false]
    {
      idx := [-1, -1, -1];
      for i := 0 to 3
        invariant |idx| == 3 && Picked(old(free), idx, i) && free == Taken(old(free), idx, 0, i) && desc == old(desc)
      {
        var d := AllocDesc();
        idx := idx[i := d];
        if d < 0 {
          NoThree(old(free), idx, i);
          for j := 0 to i
            invariant free == Taken(old(free), idx, j, i) && |desc| == NUM
            invariant forall x :: 0 <= x < NUM && !old(free)[x] ==> desc[x] == old(desc)[x]
          {
            PutBack(old(free), idx, j, i);
            var freed := FreeDesc(idx[j]);
            assert freed;
          }
          return false, idx;
        }
      }
      ok := true;
    }

    // ------------------------------------------------------------ requests

    /** virtio_disk_rw up to its wait for b->disk: false if there are too few descriptors, in which case it
        sleeps and tries again. The caller holds b's lock, so b has no request yet. */
    method Submit(b: nat, write: bool, sector: int) returns (ok: bool, h: int)
      requires Valid() && b < |bdisk| && NoRequest(fl, b)
      modifies this`free, this`desc, this`ops, this`info, this`status, this`availRing, this`availIdx, this`bdisk,
               this`owner, this`fl, this`availLog
      ensures Valid()
      ensures !ok ==>
                TooFew(free) && fl == old(fl) && free == old(free) && bdisk == old(bdisk) && availLog == old(availLog)
      ensures ok ==> h !in old(fl) && h in fl && fl == old(fl)[h := fl[h]] && availLog == old(availLog) + [h]
      ensures ok ==>
                fl[h].buf == b && fl[h].req == Request(write, sector) && fl[h].phase == Queued(|old(availLog)|)
                && bdisk == old(bdisk)[b := true]
    {
      hide Whole, Holds, Wrapped;
      WholeSizes(free, owner, desc, ops, info, status, bdisk, fl, availLog, devCount, usedLog, intrCount);
      var idx;
      ok, idx := Alloc3Desc();
      h := idx[0];
      if !ok {
        WholeSame(old(free), owner, old(desc), ops, info, status, bdisk, fl, availLog, devCount, usedLog, intrCount,
            desc);
        return;
      }
      Format(idx, b, write, sector);
      Launch(old(free), old(desc), old(ops), idx, h, b, Request(write, sector));
    }

    /** The rest of that critical section: the buffer is marked and the chain made available. */
    method Launch(ghost was: seq<bool>, ghost desc0: seq<Desc>, ghost ops0: seq<Request>, ghost idx: seq<int>, h: nat,
        b: nat, ghost req: Request)
      requires Whole(was, owner, desc0, ops0, info, status, bdisk, fl, availLog, devCount, usedLog, intrCount)
               && Rings() && |bdata| == |bdisk|
      requires Launches(was, free, desc0, desc, ops0, ops, idx, b, req) && h == idx[0] && b < |bdisk|
               && NoRequest(fl, b)
      modifies this`info, this`status, this`availRing, this`availIdx, this`bdisk, this`owner, this`fl, this`availLog
      ensures Valid() && h !in old(fl) && availLog == old(availLog) + [h] && bdisk == old(bdisk)[b := true]
      ensures fl == old(fl)[h := Flight(idx[1], idx[2], b, req, Queued(|old(availLog)|))]
    {
      hide Whole, Holds, Wrapped, Launches, NoRequest;
      WholeSizes(was, owner, desc0, ops0, info, status, bdisk, fl, availLog, devCount, usedLog, intrCount);
      Launched(was, owner, desc0, ops0, info, status, bdisk, fl, availLog, devCount, usedLog, intrCount, idx, free,
          desc, ops, b, req);
      Mark(idx, h, b, Flight(idx[1], idx[2], b, req, Queued(|availLog|)));
      Publish(h);
    }

    /** The driver's own records of the request. */
    method Mark(ghost idx: seq<int>, h: nat, b: nat, ghost f: Flight)
      requires |status| == |info| == |owner| == NUM && h < NUM && b < |bdisk| && |idx| == 3 && 0 <= idx[1] < NUM
               && 0 <= idx[2] < NUM
      modifies this`info, this`status, this`bdisk, this`owner, this`fl
      ensures status == old(status)[h := 0xff] && bdisk == old(bdisk)[b := true] && info == old(info)[h := b]
      ensures owner == old(owner)[h := h][idx[1] := h][idx[2] := h] && fl == old(fl)[h := f]
    {
      status := status[h := 0xff];
      bdisk := bdisk[b := true];
      info := info[h := b];
      owner := owner[h := h][idx[1] := h][idx[2] := h];
      fl := fl[h := f];
    }

    /** The stores that format the three descriptors and the request header. */
    method Format(idx: seq<int>, b: nat, write: bool, sector: int)
      requires |desc| == |ops| == NUM && |idx| == 3 && forall k :: 0 <= k < 3 ==> 0 <= idx[k] < NUM
      modifies this`desc, this`ops
      ensures ops == old(ops)[idx[0] := Request(write, sector)] && |desc| == NUM
      ensures idx[0] != idx[1] && idx[0] != idx[2] && idx[1] != idx[2] ==>
                && Chained(desc, idx[0], idx[1], idx[2], b, Request(write, sector))
                && forall i :: 0 <= i < NUM && i != idx[0] && i != idx[1] && i != idx[2] ==> desc[i] == old(desc)[i]
    {
      ops := ops[idx[0] := Request(write, sector)];
      desc := desc[idx[0] := Desc(Header(idx[0]), false, true, idx[1])];
      desc := desc[idx[1] := Desc(Data(b), !write, true, idx[2])];
      desc := desc[idx[2] := Desc(Status(idx[0]), true, false, 0)];
    }

    /** The next entry of the available ring; no entry that the device has not read is overwritten. */
    method Publish(h: int)
      requires Holds(availRing, availLog, devCount) && |availLog| - devCount < NUM && availIdx == Wrapped(|availLog|)
      modifies this`availRing, this`availIdx, this`availLog
      ensures Holds(availRing, availLog, devCount) && availIdx == Wrapped(|availLog|) && availLog == old(availLog) + [h]
    {
      Append(availRing, availLog, devCount, h);
      SameEntry(|availLog|);
      NextIndex(|availLog|);
      availRing := availRing[availIdx % NUM := h];
      availIdx := (availIdx + 1) % WRAP;
      availLog := availLog + [h];
    }

    /** The device takes the next available chain, if there is one. */
    method Take() returns (h: int)
      requires Valid()
      modifies this`devIdx, this`fl, this`devCount
      ensures Valid()
      ensures h == -1 ==> old(devCount) == |availLog| && unchanged(this)
      ensures h != -1 ==> old(devCount) < |availLog| && h == availLog[old(devCount)] && devCount == old(devCount) + 1
      ensures h != -1 ==> h in old(fl) && fl == old(fl)[h := old(fl)[h].(phase := AtDevice)]
    {
      hide Whole, Holds, Wrapped;
      WholeSizes(free, owner, desc, ops, info, status, bdisk, fl, availLog, devCount, usedLog, intrCount);
      SameIndex(devCount, |availLog|);
      if devIdx == availIdx {
        return -1;
      }
      HoldsNext(availRing, availLog, devCount);
      TakenUp(free, owner, desc, ops, info, status, bdisk, fl, availLog, devCount, usedLog, intrCount);
      SameEntry(devCount);
      NextIndex(devCount);
      h := availRing[devIdx % NUM];
      devIdx := (devIdx + 1) % WRAP;
      fl, devCount := fl[h := fl[h].(phase := AtDevice)], devCount + 1;
    }

    /** The device completes any chain that it has: it moves the data between the disk and the buffer that the
        chain names, sets the status and adds a used entry. What it moves is what the submitter asked for. */
    method Complete(h: int)
      requires Valid() && h in fl && fl[h].phase == AtDevice && fl[h].req.sector in store
      modifies this`bdata, this`store, this`status, this`usedRing, this`usedDev, this`fl, this`usedLog
      ensures Valid() && usedLog == old(usedLog) + [h] && fl == old(fl)[h := old(fl)[h].(phase := Used(|old(usedLog)|))]
      ensures 0 <= fl[h].buf < |bdisk| && |old(bdata)| == |bdisk|
      ensures var b, q := fl[h].buf, fl[h].req.sector;
              if fl[h].req.write then store == old(store)[q := old(bdata)[b]] && bdata == old(bdata)
              else bdata == old(bdata)[b := old(store)[q]] && store == old(store)
    {
      hide Holds, Owned, Spelled, Informed, Listed, Wrapped;
      var st := Transfer(h);
      hide Whole;
      Completed(free, owner, desc, ops, info, status, bdisk, fl, availLog, devCount, usedLog, intrCount, h);
      PostUsed(h, st);
    }

    /** The device follows the descriptors: it reads the header, moves the data, and writes only where the driver
        allows it to. The result says where the status goes. */
    method Transfer(h: int) returns (st: int)
      requires Valid() && h in fl && fl[h].req.sector in store
      modifies this`bdata, this`store
      ensures st == h && 0 <= fl[h].buf < |bdisk| == |old(bdata)| == |bdata|
      ensures var b, q := fl[h].buf, fl[h].req.sector;
              if fl[h].req.write then store == old(store)[q := old(bdata)[b]] && bdata == old(bdata)
              else bdata == old(bdata)[b := old(store)[q]] && store == old(store)
    {
      hide Holds, Owned, Spelled, Informed, Listed, Wrapped;
      ReadChain(desc, ops, info, status, bdisk, free, owner, fl, h);
      var d0 := desc[h];
      var d1 := desc[d0.next];
      var d2 := desc[d1.next];
      assert d0.more && d1.more && !d2.more && d2.fill;
      var req, b := ops[d0.addr.i], d1.addr.b;
      if req.write {
        store := store[req.sector := bdata[b]];
      } else {
        assert d1.fill;
        bdata := bdata[b := store[req.sector]];
      }
      st := d2.addr.i;
    }

    /** The status byte and the next entry of the used ring; no entry that the driver has not read is
        overwritten. */
    method PostUsed(h: int, st: int)
      requires Holds(usedRing, usedLog, intrCount) && |usedLog| - intrCount < NUM && usedDev == Wrapped(|usedLog|)
      requires 0 <= st < |status| && h in fl
      modifies this`usedRing, this`usedDev, this`usedLog, this`status, this`fl
      ensures Holds(usedRing, usedLog, intrCount) && usedDev == Wrapped(|usedLog|) && usedLog == old(usedLog) + [h]
      ensures status == old(status)[st := 0] && fl == old(fl)[h := old(fl)[h].(phase := Used(|old(usedLog)|))]
    {
      status := status[st := 0];
      fl := fl[h := fl[h].(phase := Used(|usedLog|))];
      Append(usedRing, usedLog, intrCount, h);
      SameEntry(|usedLog|);
      NextIndex(|usedLog|);
      usedRing := usedRing[usedDev % NUM := h];
      usedDev := (usedDev + 1) % WRAP;
      usedLog := usedLog + [h];
    }

    /** One trip of the loop in virtio_disk_intr: false if all used entries have been seen. The buffer whose
        b->disk is cleared is the one that submitted the request; the panic on the status is unreachable. */
    method SeeUsed() returns (more: bool)
      requires Valid()
      modifies this`bdisk, this`usedIdx, this`fl, this`intrCount
      ensures Valid() && (more <==> old(intrCount) < |usedLog|) && (!more ==> unchanged(this))
      ensures more ==> intrCount == old(intrCount) + 1
      ensures more ==> var h := usedLog[old(intrCount)];
                       h in old(fl) && old(fl)[h].phase.Used? && fl == old(fl)[h := old(fl)[h].(phase := Done)]
                         && 0 <= old(fl)[h].buf < |old(bdisk)|
                       && bdisk == old(bdisk)[old(fl)[h].buf := false]
    {
      hide Whole, Holds, Wrapped;
      WholeSizes(free, owner, desc, ops, info, status, bdisk, fl, availLog, devCount, usedLog, intrCount);
      SameIndex(intrCount, |usedLog|);
      if usedIdx == usedDev {
        return false;
      }
      HoldsNext(usedRing, usedLog, intrCount);
      Seen(free, owner, desc, ops, info, status, bdisk, fl, availLog, devCount, usedLog, intrCount);
      SameEntry(intrCount);
      NextIndex(intrCount);
      var id := usedRing[usedIdx % NUM];
      assert status[id] == 0;
      var b := info[id];
      bdisk := bdisk[b := false];
      usedIdx := (usedIdx + 1) % WRAP;
      fl, intrCount := fl[id := fl[id].(phase := Done)], intrCount + 1;
      more := true;
    }

    /** virtio_disk_intr: exactly the requests that the device has completed become done, and exactly their buffers
        lose the mark of being at the disk. */
    method Intr()
      requires Valid()
      modifies this`bdisk, this`usedIdx, this`fl, this`intrCount
      ensures Valid() && intrCount == |usedLog| && Touched(old(fl), fl, old(bdisk), bdisk)
      ensures forall h {:trigger fl[h]} ::
                h in fl ==> (old(fl)[h].phase.Used? <==> fl[h] != old(fl)[h]) && !fl[h].phase.Used?
    {
      hide Holds, Owned, Spelled, Informed, Listed, Wrapped, Touched;
      TouchedNone(fl, bdisk);
      var more := true;
      while more
        invariant Valid() && old(intrCount) <= intrCount && (!more ==> intrCount == |usedLog|)
                  && Touched(old(fl), fl, old(bdisk), bdisk)
        decreases |usedLog| - intrCount, more
      {
        ghost var f1, d1 := fl, bdisk;
        more := SeeUsed();
        if more {
          TouchedNext(old(fl), f1, old(bdisk), d1, usedLog[intrCount - 1]);
        }
      }
      TouchedAll(old(fl), fl, old(bdisk), bdisk, usedLog);
    }

    /** The end of virtio_disk_rw, once b->disk is clear: exactly the request's three descriptors are freed. */
    method Finish(h: int, b: nat)
      requires Valid() && h in fl && fl[h].buf == b < |bdisk| && !bdisk[b]
      modifies this`free, this`desc, this`info, this`owner, this`fl
      ensures Valid() && fl == old(fl) - {h} && 0 <= h < NUM && 0 <= old(fl)[h].d1 < NUM && 0 <= old(fl)[h].d2 < NUM
      ensures |old(free)| == NUM && free == old(free)[h := true][old(fl)[h].d1 := true][old(fl)[h].d2 := true]
    {
      hide Holds, Owned, Spelled, Informed, Listed, Wrapped;
      ghost var f := fl[h];
      Sizes(free, owner, desc, ops, info, status, bdisk, fl);
      Range(free, owner, fl, h);
      ReadChain(desc, ops, info, status, bdisk, free, owner, fl, h);
      OwnedGone(free, owner, fl, h);
      hide Whole, Rings;
      Unchain(h, f);
      Finished(old(free), old(owner), old(desc), ops, old(info), status, bdisk, old(fl), availLog, devCount, usedLog,
          intrCount, h, desc);
    }

    /** info[idx[0]].b = 0; free_chain(idx[0]) */
    method Unchain(h: nat, ghost f: Flight)
      requires |free| == |desc| == |info| == |owner| == NUM && h < NUM && 0 <= f.d1 < NUM && 0 <= f.d2 < NUM
               && h != f.d1 && h != f.d2 && f.d1 != f.d2
      requires !free[h] && !free[f.d1] && !free[f.d2]
      requires desc[h].more && desc[h].next == f.d1 && desc[f.d1].more && desc[f.d1].next == f.d2 && !desc[f.d2].more
      modifies this`free, this`desc, this`info, this`owner, this`fl
      ensures free == old(free)[h := true][f.d1 := true][f.d2 := true] && info == old(info)[h := -1] && |desc| == NUM
      ensures forall i {:trigger desc[i]} ::
                0 <= i < NUM && i != h && i != f.d1 && i != f.d2 ==> desc[i] == old(desc)[i]
      ensures owner == old(owner)[h := -1][f.d1 := -1][f.d2 := -1] && fl == old(fl) - {h}
    {
      info := info[h := -1];
      FreeChain(h, f.d1, f.d2);
      owner := owner[h := -1][f.d1 := -1][f.d2 := -1];
      fl := fl - {h};
    }
  }

  /** Some completed requests have become done, and only their buffers have lost their mark. */
  ghost predicate Touched(f0: map<int, Flight>, f1: map<int, Flight>, d0: seq<bool>, d1: seq<bool>) {
    && f0.Keys == f1.Keys && |d0| == |d1|
    && (forall h {:trigger f1[h]} ::
         h in f1 ==> f1[h] == f0[h] || (f0[h].phase.Used? && f1[h] == f0[h].(phase := Done)))
    && (forall b {:trigger d1[b]} ::
         0 <= b < |d1| ==> d1[b] == d0[b] || (!d1[b] && exists h :: h in f0 && f0[h].phase.Used? && f0[h].buf == b))
  }

  lemma TouchedNone(f: map<int, Flight>, d: seq<bool>)
    ensures Touched(f, f, d, d)
  {
  }

  lemma TouchedNext(f0: map<int, Flight>, f1: map<int, Flight>, d0: seq<bool>, d1: seq<bool>, h: int)
    requires Touched(f0, f1, d0, d1) && h in f1 && f1[h].phase.Used? && 0 <= f1[h].buf < |d1|
    ensures Touched(f0, f1[h := f1[h].(phase := Done)], d0, d1[f1[h].buf := false])
  {
    assert f1[h] == f0[h];
  }

  lemma TouchedAll(f0: map<int, Flight>, f1: map<int, Flight>, d0: seq<bool>, d1: seq<bool>, log: seq<int>)
    requires Touched(f0, f1, d0, d1) && Listed(log, |log|, f1, false)
    ensures forall h {:trigger f1[h]} ::
              h in f1 ==> h in f0 && (f0[h].phase.Used? <==> f1[h] != f0[h]) && !f1[h].phase.Used?
  {
  }

  /** The first n of three indices are different free descriptors. */
  predicate Picked(was: seq<bool>, idx: seq<int>, n: nat) {
    && |idx| == 3 && |was| == NUM
    && (forall k {:trigger idx[k]} :: 0 <= k < n && k < 3 ==> 0 <= idx[k] < NUM && was[idx[k]])
    && (n > 1 ==> idx[0] != idx[1]) && (n > 2 ==> idx[2] != idx[0] && idx[2] != idx[1])
  }

  /** free[] with the descriptors idx[lo..hi] taken. */
  function Taken(was: seq<bool>, idx: seq<int>, lo: nat, hi: nat): seq<bool>
    requires Picked(was, idx, hi)
  {
    var a := if lo <= 0 < hi then was[idx[0] := false] else was;
    var b := if lo <= 1 < hi then a[idx[1] := false] else a;
    if lo <= 2 < hi then b[idx[2] := false] else b
  }

  /** No three descriptors are free. */
  ghost predicate TooFew(free: seq<bool>) {
    forall i, j, k {:trigger free[i], free[j], free[k]} :: 0 <= i < j < k < |free| ==> !(free[i] && free[j] && free[k])
  }

  lemma NoThree(was: seq<bool>, idx: seq<int>, n: nat)
    requires n < 3 && Picked(was, idx, n) && forall x :: 0 <= x < NUM ==> !Taken(was, idx, 0, n)[x]
    ensures TooFew(was)
  {
    forall x | 0 <= x < NUM && was[x] ensures (n > 0 && x == idx[0]) || (n > 1 && x == idx[1]) {
      assert !Taken(was, idx, 0, n)[x];
    }
  }

  lemma PutBack(was: seq<bool>, idx: seq<int>, j: nat, hi: nat)
    requires Picked(was, idx, hi) && j < hi < 3
    ensures var t := Taken(was, idx, j, hi);
            |t| == NUM && !t[idx[j]] && t[idx[j] := true] == Taken(was, idx, j + 1, hi)
  {
  }

  lemma Sizes(free: seq<bool>, owner: seq<int>, desc: seq<Desc>, ops: seq<Request>, info: seq<int>, status: seq<int>,
      bdisk: seq<bool>, fl: map<int, Flight>)
    requires Owned(free, owner, fl) && Spelled(desc, ops, fl) && Informed(info, status, bdisk, fl)
    ensures |free| == |owner| == |desc| == |ops| == |info| == |status| == NUM
    ensures forall i {:trigger owner[i]} :: 0 <= i < NUM ==> (free[i] <==> owner[i] == -1)
  {
  }

  lemma Range(free: seq<bool>, owner: seq<int>, fl: map<int, Flight>, h: int)
    requires Owned(free, owner, fl) && h in fl
    ensures 0 <= h < NUM && 0 <= fl[h].d1 < NUM && 0 <= fl[h].d2 < NUM && h != fl[h].d1 && h != fl[h].d2
            && fl[h].d1 != fl[h].d2
  {
  }

  lemma SpelledNew(desc: seq<Desc>, ops: seq<Request>, desc': seq<Desc>, ops': seq<Request>, free: seq<bool>,
      owner: seq<int>, fl: map<int, Flight>, h: nat, f: Flight)
    requires Spelled(desc, ops, fl) && Owned(free, owner, fl) && |desc'| == |ops'| == NUM
    requires h < NUM && 0 <= f.d1 < NUM && 0 <= f.d2 < NUM && free[h] && free[f.d1] && free[f.d2]
    requires Chained(desc', h, f.d1, f.d2, f.buf, f.req) && ops' == ops[h := f.req]
    requires forall i :: 0 <= i < NUM && !free[i] ==> desc'[i] == desc[i]
    ensures Spelled(desc', ops', fl[h := f])
  {
    forall i {:trigger owner[i]} | 0 <= i < NUM && owner[i] != -1 ensures desc'[i] == desc[i] && ops'[i] == ops[i] {
      assert !free[i];
    }
    var o := owner[h];
    SpelledKept(desc, ops, desc', ops', free, owner, fl);
  }

  lemma InformedNew(info: seq<int>, status: seq<int>, bdisk: seq<bool>, free: seq<bool>, owner: seq<int>,
      fl: map<int, Flight>, h: nat, f: Flight)
    requires Informed(info, status, bdisk, fl) && Owned(free, owner, fl) && h < NUM && h !in fl && 0 <= f.buf < |bdisk|
    requires f.phase.Queued? && forall g {:trigger fl[g]} :: g in fl ==> fl[g].buf != f.buf
    ensures Informed(info[h := f.buf], status[h := 0xff], bdisk[f.buf := true], fl[h := f])
  {
  }

  lemma InformedPhase(info: seq<int>, status: seq<int>, bdisk: seq<bool>, free: seq<bool>, owner: seq<int>,
      fl: map<int, Flight>, h: int, p: Phase)
    requires Informed(info, status, bdisk, fl) && Owned(free, owner, fl) && h in fl && fl[h].phase != Done
             && p == AtDevice
    ensures Informed(info, status, bdisk, fl[h := fl[h].(phase := p)])
  {
    var f := fl[h];
  }

  lemma ListedOther(log: seq<int>, lo: nat, fl: map<int, Flight>, h: int, f: Flight)
    requires Listed(log, lo, fl, false) && h !in fl && f.phase.Queued?
    ensures Listed(log, lo, fl[h := f], false)
  {
    var fl' := fl[h := f];
    forall k {:trigger log[k]} | lo <= k < |log| ensures log[k] in fl' && fl'[log[k]].phase == Used(k) {
      var e := fl[log[k]];
    }
    forall g {:trigger fl'[g]} | g in fl' && fl'[g].phase.Used?
      ensures lo <= fl'[g].phase.k < |log| && log[fl'[g].phase.k] == g {
      var e := fl[g];
    }
  }

  /** What the device and the interrupt handler read for a request is what was submitted. */
  lemma ReadChain(desc: seq<Desc>, ops: seq<Request>, info: seq<int>, status: seq<int>, bdisk: seq<bool>,
      free: seq<bool>, owner: seq<int>, fl: map<int, Flight>, h: int)
    requires Owned(free, owner, fl) && Spelled(desc, ops, fl) && Informed(info, status, bdisk, fl) && h in fl
    ensures 0 <= h < NUM == |desc| == |ops| == |status| && 0 <= fl[h].d1 < NUM && 0 <= fl[h].d2 < NUM
    ensures Chained(desc, h, fl[h].d1, fl[h].d2, fl[h].buf, fl[h].req) && ops[h] == fl[h].req
    ensures 0 <= fl[h].buf < |bdisk| && (bdisk[fl[h].buf] <==> fl[h].phase != Done)
  {
    var f := fl[h];
  }

  lemma InformedUsed(info: seq<int>, status: seq<int>, bdisk: seq<bool>, free: seq<bool>, owner: seq<int>,
      fl: map<int, Flight>, h: int, p: Phase)
    requires Informed(info, status, bdisk, fl) && Owned(free, owner, fl) && h in fl && fl[h].phase == AtDevice
             && p.Used?
    ensures 0 <= h < NUM == |status| && Informed(info, status[h := 0], bdisk, fl[h := fl[h].(phase := p)])
  {
    var f := fl[h];
  }

  lemma InformedDone(info: seq<int>, status: seq<int>, bdisk: seq<bool>, free: seq<bool>, owner: seq<int>,
      fl: map<int, Flight>, h: int)
    requires Informed(info, status, bdisk, fl) && Owned(free, owner, fl) && h in fl && fl[h].phase.Used?
    ensures 0 <= h < NUM == |info| == |status| && status[h] == 0 && info[h] == fl[h].buf && 0 <= fl[h].buf < |bdisk|
    ensures Informed(info, status, bdisk[fl[h].buf := false], fl[h := fl[h].(phase := Done)])
  {
    var f := fl[h];
  }

  lemma InformedGone(info: seq<int>, status: seq<int>, bdisk: seq<bool>, fl: map<int, Flight>, h: int)
    requires Informed(info, status, bdisk, fl) && h in fl && 0 <= h < NUM
    ensures Informed(info[h := -1], status, bdisk, fl - {h})
  {
    var fl' := fl - {h};
    forall g {:trigger fl'[g]} | g in fl' ensures g in fl && fl'[g] == fl[g] {
      var f := fl[g];
    }
  }

  lemma SpelledGone(desc: seq<Desc>, ops: seq<Request>, desc': seq<Desc>, free: seq<bool>, owner: seq<int>,
      fl: map<int, Flight>, h: int)
    requires Spelled(desc, ops, fl) && Owned(free, owner, fl) && h in fl && |desc'| == NUM
    requires forall i {:trigger desc'[i]} ::
               0 <= i < NUM && i != h && i != fl[h].d1 && i != fl[h].d2 ==> desc'[i] == desc[i]
    ensures Spelled(desc', ops, fl - {h})
  {
    var fl' := fl - {h};
    var e := fl[h];
    forall g {:trigger fl'[g]} | g in fl'
      ensures desc'[g] == desc[g] && desc'[fl[g].d1] == desc[fl[g].d1] && desc'[fl[g].d2] == desc[fl[g].d2] {
      var f := fl[g];
      assert owner[g] == g && owner[f.d1] == g && owner[f.d2] == g;
    }
    forall g {:trigger fl'[g]} | g in fl' ensures fl'[g] == fl[g] {
      var f := fl[g];
    }
  }

  // ------------------------------------------------------ the state as a whole

  /** Everything about the requests in flight but the contents of the rings. */
  ghost predicate Whole(free: seq<bool>, owner: seq<int>, desc: seq<Desc>, ops: seq<Request>, info: seq<int>,
      status: seq<int>, bdisk: seq<bool>,
                        fl: map<int, Flight>, availLog: seq<int>, dev: nat, usedLog: seq<int>, seen: nat) {
    && Owned(free, owner, fl) && Spelled(desc, ops, fl) && Informed(info, status, bdisk, fl)
    && dev <= |availLog| && seen <= |usedLog| && Listed(availLog, dev, fl, true) && Listed(usedLog, seen, fl, false)
  }

  lemma WholeSizes(free: seq<bool>, owner: seq<int>, desc: seq<Desc>, ops: seq<Request>, info: seq<int>,
      status: seq<int>, bdisk: seq<bool>,
                   fl: map<int, Flight>, availLog: seq<int>, dev: nat, usedLog: seq<int>, seen: nat)
    requires Whole(free, owner, desc, ops, info, status, bdisk, fl, availLog, dev, usedLog, seen)
    ensures |free| == |owner| == |desc| == |ops| == |info| == |status| == NUM
    ensures 0 <= |availLog| - dev <= NUM && 0 <= |usedLog| - seen <= NUM
  {
    hide Spelled, Informed, Listed, Owned;
    Sizes(free, owner, desc, ops, info, status, bdisk, fl);
    Outstanding(availLog, dev, owner, free, fl, true);
    Outstanding(usedLog, seen, owner, free, fl, false);
  }

  /** An allocation that failed has changed no descriptor in use. */
  lemma WholeSame(free: seq<bool>, owner: seq<int>, desc: seq<Desc>, ops: seq<Request>, info: seq<int>,
      status: seq<int>, bdisk: seq<bool>,
                  fl: map<int, Flight>, availLog: seq<int>, dev: nat, usedLog: seq<int>, seen: nat, desc': seq<Desc>)
    requires Whole(free, owner, desc, ops, info, status, bdisk, fl, availLog, dev, usedLog, seen)
             && |desc'| == NUM == |free| == |desc|
    requires forall x :: 0 <= x < NUM && !free[x] ==> desc'[x] == desc[x]
    ensures Whole(free, owner, desc', ops, info, status, bdisk, fl, availLog, dev, usedLog, seen)
  {
    hide Spelled, Informed, Listed, Owned;
    Sizes(free, owner, desc, ops, info, status, bdisk, fl);
    SpelledKept(desc, ops, desc', ops, free, owner, fl);
  }

  /** Three free descriptors have been taken and formatted. */
  ghost predicate Launches(free: seq<bool>, free': seq<bool>, desc: seq<Desc>, desc': seq<Desc>, ops: seq<Request>,
      ops': seq<Request>,
                           idx: seq<int>, b: nat, req: Request) {
    && Picked(free, idx, 3) && free' == Taken(free, idx, 0, 3) && |desc| == |desc'| == |ops| == NUM
    && ops' == ops[idx[0] := req]
    && Chained(desc', idx[0], idx[1], idx[2], b, req)
    && forall i :: 0 <= i < NUM && !free[i] ==> desc'[i] == desc[i]
  }

  ghost predicate NoRequest(fl: map<int, Flight>, b: nat) {
    forall g {:trigger fl[g]} :: g in fl ==> fl[g].buf != b
  }

  lemma Launched(free: seq<bool>, owner: seq<int>, desc: seq<Desc>, ops: seq<Request>, info: seq<int>, status: seq<int>,
      bdisk: seq<bool>,
                 fl: map<int, Flight>, availLog: seq<int>, dev: nat, usedLog: seq<int>, seen: nat,
                 idx: seq<int>, free': seq<bool>, desc': seq<Desc>, ops': seq<Request>, b: nat, req: Request)
    requires Whole(free, owner, desc, ops, info, status, bdisk, fl, availLog, dev, usedLog, seen)
    requires Launches(free, free', desc, desc', ops, ops', idx, b, req) && |info| == |status| == |owner| == NUM
             && b < |bdisk| && NoRequest(fl, b)
    ensures |idx| == 3 && 0 <= idx[0] < NUM && 0 <= idx[1] < NUM && 0 <= idx[2] < NUM
    ensures |availLog| - dev < NUM && idx[0] !in fl
    ensures var h := idx[0];
            var f := Flight(idx[1], idx[2], b, req, Queued(|availLog|));
            Whole(free', owner[h := h][f.d1 := h][f.d2 := h], desc', ops', info[h := b], status[h := 0xff],
                  bdisk[b := true], fl[h := f], availLog + [h], dev, usedLog, seen)
  {
    hide Spelled, Informed, Listed, Owned;
    var h := idx[0];
    var f := Flight(idx[1], idx[2], b, req, Queued(|availLog|));
    OwnedNew(free, owner, fl, h, f);
    SpelledNew(desc, ops, desc', ops[h := req], free, owner, fl, h, f);
    InformedNew(info, status, bdisk, free, owner, fl, h, f);
    RoomLeft(availLog, dev, owner, free, fl, true, h);
    ListedAppend(availLog, dev, fl, true, h, f);
    ListedOther(usedLog, seen, fl, h, f);
  }

  lemma TakenUp(free: seq<bool>, owner: seq<int>, desc: seq<Desc>, ops: seq<Request>, info: seq<int>, status: seq<int>,
      bdisk: seq<bool>,
                fl: map<int, Flight>, availLog: seq<int>, dev: nat, usedLog: seq<int>, seen: nat)
    requires Whole(free, owner, desc, ops, info, status, bdisk, fl, availLog, dev, usedLog, seen) && dev < |availLog|
    ensures var h := availLog[dev];
            h in fl && 0 <= h < NUM
              && Whole(free, owner, desc, ops, info, status, bdisk, fl[h := fl[h].(phase := AtDevice)], availLog,
                  dev + 1, usedLog, seen)
  {
    hide Spelled, Informed, Listed, Owned;
    ListedNext(availLog, dev, fl, true, AtDevice);
    var h := availLog[dev];
    Range(free, owner, fl, h);
    OwnedPhase(free, owner, fl, h, AtDevice);
    SpelledPhase(desc, ops, fl, h, AtDevice);
    InformedPhase(info, status, bdisk, free, owner, fl, h, AtDevice);
    ListedPhase(usedLog, seen, fl, false, h, AtDevice);
  }

  lemma Completed(free: seq<bool>, owner: seq<int>, desc: seq<Desc>, ops: seq<Request>, info: seq<int>,
      status: seq<int>, bdisk: seq<bool>,
                  fl: map<int, Flight>, availLog: seq<int>, dev: nat, usedLog: seq<int>, seen: nat, h: int)
    requires Whole(free, owner, desc, ops, info, status, bdisk, fl, availLog, dev, usedLog, seen) && h in fl
             && fl[h].phase == AtDevice
    ensures |usedLog| - seen < NUM && 0 <= h < NUM == |status|
    ensures Whole(free, owner, desc, ops, info, status[h := 0], bdisk, fl[h := fl[h].(phase := Used(|usedLog|))],
              availLog, dev, usedLog + [h], seen)
  {
    hide Spelled, Informed, Listed, Owned;
    var p := Used(|usedLog|);
    Range(free, owner, fl, h);
    OwnedPhase(free, owner, fl, h, p);
    SpelledPhase(desc, ops, fl, h, p);
    InformedUsed(info, status, bdisk, free, owner, fl, h, p);
    RoomLeft(usedLog, seen, owner, free, fl, false, h);
    ListedAppend(usedLog, seen, fl, false, h, fl[h].(phase := p));
    ListedPhase(availLog, dev, fl, true, h, p);
  }

  lemma Seen(free: seq<bool>, owner: seq<int>, desc: seq<Desc>, ops: seq<Request>, info: seq<int>, status: seq<int>,
      bdisk: seq<bool>,
             fl: map<int, Flight>, availLog: seq<int>, dev: nat, usedLog: seq<int>, seen: nat)
    requires Whole(free, owner, desc, ops, info, status, bdisk, fl, availLog, dev, usedLog, seen) && seen < |usedLog|
    ensures var h := usedLog[seen];
            && h in fl && fl[h].phase.Used? && 0 <= h < NUM == |info| == |status| && status[h] == 0
            && info[h] == fl[h].buf && 0 <= fl[h].buf < |bdisk|
            && Whole(free, owner, desc, ops, info, status, bdisk[fl[h].buf := false], fl[h := fl[h].(phase := Done)],
                availLog, dev, usedLog, seen + 1)
  {
    hide Spelled, Informed, Listed, Owned;
    ListedNext(usedLog, seen, fl, false, Done);
    var h := usedLog[seen];
    InformedDone(info, status, bdisk, free, owner, fl, h);
    OwnedPhase(free, owner, fl, h, Done);
    SpelledPhase(desc, ops, fl, h, Done);
    ListedPhase(availLog, dev, fl, true, h, Done);
  }

  lemma Finished(free: seq<bool>, owner: seq<int>, desc: seq<Desc>, ops: seq<Request>, info: seq<int>, status: seq<int>,
      bdisk: seq<bool>,
                 fl: map<int, Flight>, availLog: seq<int>, dev: nat, usedLog: seq<int>, seen: nat, h: nat,
                     desc': seq<Desc>)
    requires Whole(free, owner, desc, ops, info, status, bdisk, fl, availLog, dev, usedLog, seen) && h in fl
             && fl[h].phase == Done
    requires |desc'| == NUM == |desc| && forall i {:trigger desc'[i]} ::
               0 <= i < NUM && i != h && i != fl[h].d1 && i != fl[h].d2 ==> desc'[i] == desc[i]
    ensures var f := fl[h];
            && |free| == |owner| == |info| == NUM && h < NUM && 0 <= f.d1 < NUM && 0 <= f.d2 < NUM
            && Whole(free[h := true][f.d1 := true][f.d2 := true], owner[h := -1][f.d1 := -1][f.d2 := -1], desc', ops,
                info[h := -1], status, bdisk,
                     fl - {h}, availLog, dev, usedLog, seen)
  {
    hide Spelled, Informed, Listed, Owned;
    Sizes(free, owner, desc, ops, info, status, bdisk, fl);
    OwnedGone(free, owner, fl, h);
    InformedGone(info, status, bdisk, fl, h);
    ListedGone(availLog, dev, fl, true, h);
    ListedGone(usedLog, seen, fl, false, h);
    SpelledGone(desc, ops, desc', free, owner, fl, h);
  }

}
