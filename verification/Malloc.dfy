/** The storage allocator of user/umalloc.c (section 8.7 of The C Programming Language, 2nd edition).
    Addresses are in units of sizeof(Header). */
module Malloc {
  datatype Option<T> = None | Some(value: T)

  // ------------------------------------------------------------- invariants

  /** g follows h in the circular, address-ordered list of the headers in F. */
  ghost predicate Follows(F: set<int>, base: int, h: int, g: int) {
    && g in F
    && if h < g then forall x {:trigger x in F} :: x in F ==> x <= h || g <= x
       else g == base && forall x {:trigger x in F} :: x in F ==> x <= h
  }

  ghost predicate Circle(F: set<int>, base: int, ptr: map<int, int>) {
    && base in F
    && (forall h {:trigger h in F} :: h in F ==> base <= h)
    && (forall h {:trigger ptr[h]} :: h in F ==> h in ptr && Follows(F, base, h, ptr[h]))
  }

  /** Free blocks are not empty, and no two of them overlap or touch; the list head is empty. */
  ghost predicate Apart(F: set<int>, base: int, size: map<int, int>) {
    && (forall h {:trigger h in F} :: h in F ==> h in size && (if h == base then size[h] == 0 else size[h] >= 1))
    && (forall h, g {:trigger h in F, g in F} :: h in F && g in F && h < g && h in size ==> h + size[h] < g)
  }

  predicate IsBlock(F: set<int>, base: int, live: map<int, int>, h: int) {
    (h in F && h != base) || h in live
  }

  /** Unit u is in the block with header h. */
  predicate Inside(size: map<int, int>, h: int, u: int) {
    h in size && h <= u < h + size[h]
  }

  /** Every unit obtained from the system is in exactly one block: `owner` maps it to the header of the free or
      allocated block that it is in. */
  ghost predicate Tiled(F: set<int>, base: int, size: map<int, int>, live: map<int, int>, owner: map<int, int>) {
    && (forall u {:trigger u in owner} {:trigger owner[u]} ::
         u in owner ==> IsBlock(F, base, live, owner[u]) && Inside(size, owner[u], u) && base < u)
    && (forall h, u {:trigger Inside(size, h, u)} ::
         IsBlock(F, base, live, h) && Inside(size, h, u) ==> u in owner && owner[u] == h)
    && (forall a {:trigger a in live} :: a in live ==> a in size && size[a] == live[a] >= 1 && a !in F)
  }

  // ------------------------------------------------------------------- free

  /** Where a block belongs: p is the last free block before it. */
  ghost predicate Before(F: set<int>, p: int, b: int) {
    p in F && p < b && forall x {:trigger x in F} :: x in F ==> x <= p || b < x
  }

  lemma CircleInsert(F: set<int>, base: int, ptr: map<int, int>, p: int, b: int)
    requires Circle(F, base, ptr) && Before(F, p, b)
    ensures p in ptr && Circle(F + {b}, base, ptr[b := ptr[p]][p := b])
  {
    var q := ptr[p];
  }

  /** b takes the place of its successor q. */
  lemma CircleReplace(F: set<int>, base: int, ptr: map<int, int>, p: int, b: int)
    requires Circle(F, base, ptr) && Before(F, p, b) && p in ptr && b < ptr[p] && ptr[p] in ptr
    ensures Circle(F - {ptr[p]} + {b}, base, ptr[b := ptr[ptr[p]]][p := b])
  {
    var q := ptr[p];
    var r := ptr[q];
  }

  /** The successor q of p leaves the list. */
  lemma CircleRemove(F: set<int>, base: int, ptr: map<int, int>, p: int)
    requires Circle(F, base, ptr) && p in F && p in ptr && ptr[p] in ptr && ptr[p] != base
    ensures Circle(F - {ptr[p]}, base, ptr[p := ptr[ptr[p]]])
  {
    var q := ptr[p];
    var r := ptr[q];
  }

  /** Two blocks do not overlap. */
  lemma Disjoint(F: set<int>, base: int, size: map<int, int>, live: map<int, int>, owner: map<int, int>, h: int, g: int)
    requires Tiled(F, base, size, live, owner) && IsBlock(F, base, live, h) && IsBlock(F, base, live, g)
    requires h in size && g in size && size[g] >= 1 && h < g
    ensures h + size[h] <= g
  {
    assert Inside(size, g, g);
    var both := Inside(size, h, g);
  }

  lemma AboveBase(F: set<int>, base: int, size: map<int, int>, live: map<int, int>, owner: map<int, int>, a: int)
    requires Tiled(F, base, size, live, owner) && a in live
    ensures a in size && size[a] >= 1 && base < a && a !in F
  {
    assert Inside(size, a, a);
  }

  function Redirect(owner: map<int, int>, from: int, to: int): (r: map<int, int>)
    ensures r.Keys == owner.Keys && forall u {:trigger r[u]} ::
              u in owner ==> r[u] == if owner[u] == from then to else owner[u]
  {
    map u | u in owner :: if owner[u] == from then to else owner[u]
  }

  /** An allocated block becomes a free one. */
  lemma TiledFree(F: set<int>, base: int, size: map<int, int>, live: map<int, int>, owner: map<int, int>, b: int)
    requires Tiled(F, base, size, live, owner) && b in live && b != base
    ensures Tiled(F + {b}, base, size, live - {b}, owner)
  {
    forall h ensures IsBlock(F + {b}, base, live - {b}, h) <==> IsBlock(F, base, live, h) {
    }
  }

  /** A free block absorbs the free block after it. */
  lemma TiledMerge(F: set<int>, base: int, size: map<int, int>, live: map<int, int>, owner: map<int, int>, h: int,
      g: int)
    requires Tiled(F, base, size, live, owner) && h in F && g in F && h != base && g != base && h != g
    requires h in size && g in size && size[h] >= 1 && size[g] >= 1 && h + size[h] == g
    ensures Tiled(F - {g}, base, size[h := size[h] + size[g]], live, Redirect(owner, g, h))
  {
    var F', size', owner' := F - {g}, size[h := size[h] + size[g]], Redirect(owner, g, h);
    forall k, u {:trigger Inside(size', k, u)} | IsBlock(F', base, live, k) && Inside(size', k, u)
      ensures u in owner' && owner'[u] == k {
      if k == h {
        assert Inside(size, h, u) || Inside(size, g, u);
      } else {
        assert Inside(size, k, u);
      }
    }
    forall u {:trigger u in owner'} {:trigger owner'[u]} | u in owner'
      ensures IsBlock(F', base, live, owner'[u]) && Inside(size', owner'[u], u) && base < u
    {
      var k := owner[u];
    }
  }

  /** The free list after free(b), which goes after p: its headers, in the four cases. */
  function Joined(F: set<int>, p: int, b: int, q: int, up: bool, low: bool): set<int> {
    var F1 := if up then F - {q} + {b} else F + {b};
    if low then F1 - {b} else F1
  }

  lemma ApartFree(F: set<int>, base: int, size: map<int, int>, live: map<int, int>, owner: map<int, int>, p: int,
      b: int, q: int)
    requires Apart(F, base, size) && Tiled(F, base, size, live, owner) && base in F && Before(F, p, b) && b in live
    requires q in F
    requires if p < q then forall x {:trigger x in F} :: x in F ==> x <= p || q <= x
             else q == base && forall x {:trigger x in F} :: x in F ==> x <= p
    requires forall x {:trigger x in F} :: x in F ==> base <= x
    ensures p in size && b in size && q in size
    ensures var up, low := b + size[b] == q, p + size[p] == b;
            var size1 := if up then size[b := size[b] + size[q]] else size;
            var size2 := if low then size1[p := size1[p] + size1[b]] else size1;
            && (up ==> b < q && q != base) && (low ==> p != base)
            && Apart(Joined(F, p, b, q, up, low), base, size2)
  {
    AboveBase(F, base, size, live, owner, b);
    var n, m := size[p], size[q];
    if p != base {
      Disjoint(F, base, size, live, owner, p, b);
    }
    if b < q {
      Disjoint(F, base, size, live, owner, b, q);
    }
    assert p + size[p] <= b;
    var up, low := b + size[b] == q, p + size[p] == b;
    var size1 := if up then size[b := size[b] + size[q]] else size;
    var size2 := if low then size1[p := size1[p] + size1[b]] else size1;
    var F' := Joined(F, p, b, q, up, low);
    forall h {:trigger size2[h]} | h in F' ensures h in size2 && (if h == base then size2[h] == 0 else size2[h] >= 1) {
      assert h != b ==> h in F && size[h] >= 0;
    }
    forall h, g {:trigger size2[h], g in F'} | h in F' && g in F' && h < g && h in size2 ensures h + size2[h] < g {
      assert h != b ==> h in F && size[h] >= 0;
      assert g != b ==> g in F;
    }
  }

  lemma CircleFree(F: set<int>, base: int, ptr: map<int, int>, p: int, b: int, up: bool, low: bool)
    requires Circle(F, base, ptr) && Before(F, p, b) && p in ptr && ptr[p] in ptr && (up ==> b < ptr[p])
    ensures var q := ptr[p];
            var ptr1 := ptr[b := if up then ptr[q] else q];
            var ptr2 := ptr1[p := if low then ptr1[b] else b];
            Circle(Joined(F, p, b, q, up, low), base, ptr2) && p in Joined(F, p, b, q, up, low)
  {
    var q := ptr[p];
    var ptr1 := ptr[b := if up then ptr[q] else q];
    var F1 := if up then F - {q} + {b} else F + {b};
    if up {
      CircleReplace(F, base, ptr, p, b);
    } else {
      CircleInsert(F, base, ptr, p, b);
    }
    assert base < b by { assert p in F; }
    if low {
      CircleRemove(F1, base, ptr1[p := b], p);
      assert ptr1[p := b][p := ptr1[b]] == ptr1[p := ptr1[b]];
    }
  }

  lemma TiledJoin(F: set<int>, base: int, size: map<int, int>, live: map<int, int>, owner: map<int, int>, p: int,
      b: int, q: int, up: bool, low: bool)
    requires Tiled(F, base, size, live, owner) && b in live && b != base && b in size && p in F && q in F && p in size
             && q in size
    requires up ==> q != base && q != b && size[q] >= 1 && b + size[b] == q
    requires low ==> p != base && p != b && p != q && size[p] >= 1 && p + size[p] == b
    ensures var size1 := if up then size[b := size[b] + size[q]] else size;
            var size2 := if low then size1[p := size1[p] + size1[b]] else size1;
            var owner1 := if up then Redirect(owner, q, b) else owner;
            var owner2 := if low then Redirect(owner1, b, p) else owner1;
            Tiled(Joined(F, p, b, q, up, low), base, size2, live - {b}, owner2) && owner2.Keys == owner.Keys
  {
    hide Tiled;
    TiledFree(F, base, size, live, owner, b);
    AboveBase(F, base, size, live, owner, b);
    var size1 := if up then size[b := size[b] + size[q]] else size;
    var owner1 := if up then Redirect(owner, q, b) else owner;
    var F1 := if up then F - {q} + {b} else F + {b};
    if up {
      TiledMerge(F + {b}, base, size, live - {b}, owner, b, q);
      assert F + {b} - {q} == F1;
    }
    if low {
      TiledMerge(F1, base, size1, live - {b}, owner1, p, b);
    }
  }

  function Above(F: set<int>, p: int): set<int> { set x | x in F && p < x }
  function Between(F: set<int>, p: int, b: int): set<int> { set x | x in F && p < x < b }

  lemma Fewer(a: set<int>, b: set<int>, x: int)
    requires a <= b && x in b && x !in a
    ensures |a| < |b|
  {
    assert b == a + (b - a) && b - a != {};
    assert |b - a| > 0;
  }

  /** How far the search of free is from the place of b, going round the list. */
  function Distance(F: set<int>, p: int, b: int): nat {
    if p < b then |Between(F, p, b)| else |F| + |Above(F, p)|
  }

  lemma Closer(F: set<int>, base: int, ptr: map<int, int>, p: int, b: int)
    requires Circle(F, base, ptr) && p in F && p in ptr && b !in F && base < b
    requires !(p < b < ptr[p]) && !(p >= ptr[p] && (b > p || b < ptr[p]))
    ensures ptr[p] in F && Distance(F, ptr[p], b) < Distance(F, p, b)
  {
    var q := ptr[p];
    if p < b {
      Fewer(Between(F, q, b), Between(F, p, b), q);
    } else if p < q {
      Fewer(Above(F, q), Above(F, p), q);
    } else {
      Fewer(Between(F, base, b), F, base);
    }
  }

  class Heap {
    const base: int              // the address of the static list head, below the heap
    var ptr: map<int, int>       // s.ptr of each header
    var size: map<int, int>      // s.size
    var freep: int               // 0 until the first call of malloc

    ghost var F: set<int>             // the headers on the free list
    ghost var live: map<int, int>     // the allocated blocks with their sizes
    ghost var owner: map<int, int>    // the block each unit is in
    ghost var obtained: nat           // units obtained from the system

    ghost predicate Listed()
      reads this
    {
      0 < base && freep in F && F <= ptr.Keys && Circle(F, base, ptr) && Apart(F, base, size)
        && Tiled(F, base, size, live, owner)
    }

    ghost predicate Valid()
      reads this
    {
      && 0 < base && |owner| == obtained
      && if freep == 0 then live == map[] && owner == map[] else Listed()
    }

    constructor (base: int)
      requires 0 < base
      ensures Valid() && this.base == base && live == map[] && freep == 0
    {
      this.base, ptr, size, freep := base, map[], map[], 0;
      F, live, owner, obtained := {}, map[], map[], 0;
    }

    /** The search of free: the free block after which b belongs. */
    method FindPlace(b: int) returns (p: int)
      requires Listed() && b !in F && base < b
      ensures p in F && Before(F, p, b)
    {
      hide Apart, Tiled, Distance;
      p := freep;
      while !(b > p && b < ptr[p])
        invariant p in F
        decreases Distance(F, p, b)
      {
        if p >= ptr[p] && (b > p || b < ptr[p]) {
          break;
        }
        Closer(F, base, ptr, p, b);
        p := ptr[p];
      }
    }

    /** free, of the block whose header is at b. */
    method Free(b: int)
      requires Listed() && b in live
      modifies this`ptr, this`size, this`freep, this`F, this`live, this`owner
      ensures Listed() && live == old(live) - {b} && owner.Keys == old(owner).Keys
      ensures b in owner && owner[b] in F && owner[b] in size && size[owner[b]] >= old(live)[b]
    {
      hide Circle, Apart, Tiled, Before, Joined;
      AboveBase(F, base, size, live, owner, b);
      var p := FindPlace(b);
      Successor(F, base, ptr, p);
      var q := ptr[p];
      ApartFree(F, base, size, live, owner, p, b, q);
      var up, low := b + size[b] == q, p + size[p] == b;
      InF(F, base, size, q, p);
      PlaceFacts(F, p, b);
      CircleFree(F, base, ptr, p, b, up, low);
      TiledJoin(F, base, size, live, owner, p, b, q, up, low);
      JoinedHas(F, base, size, live, owner, p, b, q, up, low);
      JoinedIn(F, ptr.Keys, p, b, q, up, low);
      Relink(p, b);
      Recount(p, b, q, up, low);
    }

    ghost method Recount(p: int, b: int, q: int, up: bool, low: bool)
      modifies this`F, this`live, this`owner
      ensures F == Joined(old(F), p, b, q, up, low) && live == old(live) - {b}
      ensures var owner1 := if up then Redirect(old(owner), q, b) else old(owner);
              owner == if low then Redirect(owner1, b, p) else owner1
    {
      owner := if up then Redirect(owner, q, b) else owner;
      owner := if low then Redirect(owner, b, p) else owner;
      F, live := Joined(F, p, b, q, up, low), live - {b};
    }

    // ----------------------------------------------------------------- malloc

    /** morecore: `brk` is what sbrk returns, a stretch of nu units that were not in use. 0 if it fails. The block
        that holds the new units is on the free list. */
    method Morecore(nunits: nat, brk: Option<int>) returns (p: int, ghost g: int)
      requires Listed() && 0 < nunits && (brk.Some? ==> Fresh(owner, base, brk.value, AtLeast(nunits)))
      modifies this`ptr, this`size, this`freep, this`F, this`live, this`owner, this`obtained
      ensures Listed() && live == old(live) && |owner| - obtained == |old(owner)| - old(obtained)
      ensures p == 0 ==> brk.None? && unchanged(this)
      ensures p != 0 ==>
                brk.Some? && p == freep && obtained == old(obtained) + AtLeast(nunits) && g in F && g in size
                && size[g] >= nunits
    {
      hide Circle, Apart, Tiled, Fresh, Region;
      g := 0;
      if brk.None? {
        return 0, 0;
      }
      var hp, nu := brk.value, AtLeast(nunits);
      NewHeader(F, base, size, live, owner, hp, nu);
      RegionExtends(owner, base, hp, nu);
      NewTiles(F, base, size, live, owner, owner + Region(hp, nu), hp, nu);
      NewCard(owner, base, hp, nu);
      Obtain(hp, nu);
      Free(hp);
      assert live == old(live);
      SameCard(owner, old(owner) + Region(hp, nu));
      Positive(F, base, ptr, freep);
      p, g := freep, owner[hp];
    }

    /** hp->s.size = nu, for a stretch that nobody has seen yet. */
    method Obtain(hp: int, nu: nat)
      modifies this`size, this`live, this`owner, this`obtained
      ensures size == old(size)[hp := nu] && live == old(live)[hp := nu] && owner == old(owner) + Region(hp, nu)
              && obtained == old(obtained) + nu
    {
      size := size[hp := nu];
      live, owner, obtained := live[hp := nu], owner + Region(hp, nu), obtained + nu;
    }

    /** The part of malloc that takes n units from free block p, which follows prevp. */
    method Carve(prevp: int, p: int, n: nat) returns (a: int)
      requires Listed() && prevp in F && ptr[prevp] == p && p in size && size[p] >= n > 0
      modifies this`ptr, this`size, this`freep, this`F, this`live, this`owner
      ensures Listed() && 0 < a && a !in old(live) && live == old(live)[a := n] && owner.Keys == old(owner).Keys
              && freep == prevp && a == p + old(size)[p] - n
    {
      hide Circle, Apart, Tiled;
      Successor(F, base, ptr, prevp);
      InF(F, base, size, p, prevp);
      NotBase(F, base, size, p);
      Positive(F, base, ptr, p);
      if size[p] == n {
        TakenWhole(F, base, ptr, size, live, owner, prevp, n);
        ptr := ptr[prevp := ptr[p]];
        F, live := F - {p}, live[p := n];
        a := p;
      } else {
        TakenTail(F, base, size, live, owner, p, n);
        a := p + size[p] - n;
        size := size[p := size[p] - n][a := n];
        live, owner := live[a := n], Carved(owner, a, n);
      }
      freep := prevp;
    }

    /** The static list head, on the first call. */
    method Begin()
      requires Valid() && freep == 0
      modifies this`ptr, this`size, this`freep, this`F
      ensures Valid() && freep == base && F == {base} && base in size && size[base] == 0
    {
      ptr, size, freep, F := ptr[base := base], size[base := 0], base, {base};
    }

    /** malloc: the address after the header of a block of its own for nbytes, taken from the end of the first free
        block after freep that is large enough, or 0 if there is none and the system has no more memory. It asks for
        more memory at most once, and only if there is none. */
    method Malloc(nbytes: nat, brk: Option<int>) returns (r: int)
      requires Valid() && Units(nbytes) * HEADER < 0x8000_0000
               && (brk.Some? ==> Fresh(owner, base, brk.value, AtLeast(Units(nbytes))))
      modifies this`ptr, this`size, this`freep, this`F, this`live, this`owner, this`obtained
      ensures Valid()
      ensures r == 0 <==> brk.None? && (old(freep) == 0 || AllSmall(old(F), old(size), Units(nbytes)))
      ensures r == 0 ==> live == old(live) && owner == old(owner) && AllSmall(F, size, Units(nbytes))
      ensures r != 0 ==> r - 1 !in old(live) && live == old(live)[r - 1 := Units(nbytes)]
      ensures obtained == old(obtained) || (brk.Some? && obtained == old(obtained) + AtLeast(Units(nbytes)))
      ensures old(freep) != 0 && !AllSmall(old(F), old(size), Units(nbytes)) ==> obtained == old(obtained)
      ensures old(freep) != 0 && !AllSmall(old(F), old(size), Units(nbytes)) ==>
                NextFit(old(F), old(ptr), old(size), old(freep), freep, Units(nbytes), r - 1)
    {
      hide Circle, Apart, Tiled, Fresh, Passed, Scanned, AllSmall, NextFit, SoFar, Units, AtLeast;
      var nunits := Units(nbytes);
      if freep == 0 {
        Begin();
        OnlyHead(F, base, size, nunits);
      }
      var prevp := freep;
      Successor(F, base, ptr, prevp);
      ScanStart(F, size, freep, nunits);
      Searching(old(F), old(ptr), old(size), old(freep), F, ptr, size, freep, nunits);
      var p := ptr[prevp];
      ghost var more := false;
      while true
        invariant Listed() && |owner| == obtained && live == old(live) && prevp in F && prevp in ptr && p == ptr[prevp]
        invariant Scanned(F, size, freep, prevp, nunits)
        invariant SoFar(old(F), old(ptr), old(size), old(freep), F, ptr, size, freep, nunits, more)
        invariant if more then brk.Some? && obtained == old(obtained) + AtLeast(nunits)
                  else obtained == old(obtained) && owner == old(owner)
        decreases !more, |F - Passed(F, freep, prevp)|
      {
        Successor(F, base, ptr, prevp);
        InF(F, base, size, p, prevp);
        if size[p] >= nunits {
          Fits(F, size, p, nunits);
          Found(old(F), old(ptr), old(size), old(freep), F, ptr, size, freep, nunits, more);
          ghost var before := owner;
          IsNextFit(F, ptr, size, freep, prevp, nunits);
          var a := Carve(prevp, p, nunits);
          SameCard(owner, before);
          return a + 1;
        }
        ScanNext(F, base, ptr, size, freep, prevp, nunits);
        if p == freep {
          NotFound(old(F), old(ptr), old(size), old(freep), F, ptr, size, freep, nunits, more);
          ghost var g;
          p, g := Morecore(nunits, brk);
          if p == 0 {
            return 0;
          }
          more := true;
          Fits(F, size, g, nunits);
          GotMore(old(F), old(ptr), old(size), old(freep), F, ptr, size, freep, nunits);
          ScanStart(F, size, freep, nunits);
        }
        Successor(F, base, ptr, p);
        prevp, p := p, ptr[p];
      }
    }

    /** The stores of free, with b to go after p. */
    method Relink(p: int, b: int)
      requires p in ptr && ptr[p] in ptr && p in size && b in size && ptr[p] in size && p != b && b != ptr[p]
      modifies this`ptr, this`size, this`freep
      ensures var q := old(ptr)[p];
              var up, low := b + old(size)[b] == q, p + old(size)[p] == b;
              var ptr1 := old(ptr)[b := if up then old(ptr)[q] else q];
              var size1 := if up then old(size)[b := old(size)[b] + old(size)[q]] else old(size);
              ptr == ptr1[p := if low then ptr1[b] else b]
                && size == if low then size1[p := size1[p] + size1[b]] else size1
      ensures freep == p
    {
      if b + size[b] == ptr[p] {
        size := size[b := size[b] + size[ptr[p]]];
        ptr := ptr[b := ptr[ptr[p]]];
      } else {
        ptr := ptr[b := ptr[p]];
      }
      if p + size[p] == b {
        size := size[p := size[p] + size[b]];
        ptr := ptr[p := ptr[b]];
      } else {
        ptr := ptr[p := b];
      }
      freep := p;
    }
  }

  lemma Successor(F: set<int>, base: int, ptr: map<int, int>, p: int)
    requires Circle(F, base, ptr) && p in F && F <= ptr.Keys
    ensures p in ptr && ptr[p] in F && ptr[p] in ptr && base in F
    ensures if p < ptr[p] then forall x {:trigger x in F} :: x in F ==> x <= p || ptr[p] <= x
            else ptr[p] == base && forall x {:trigger x in F} :: x in F ==> x <= p
    ensures forall x {:trigger x in F} :: x in F ==> base <= x
  {
    var q := ptr[p];
  }

  lemma JoinedHas(F: set<int>, base: int, size: map<int, int>, live: map<int, int>, owner: map<int, int>, p: int,
      b: int, q: int, up: bool, low: bool)
    requires Tiled(F, base, size, live, owner) && b in live && p in F && q in F && b !in F && q in size && p in size
             && (q != base ==> size[q] >= 1) && size[p] >= 0
    requires (up ==> q != base) && (low ==> p != b && p != q)
    ensures b in size && size[b] == live[b] && b in owner && owner[b] == b
    ensures (if low then p else b) in Joined(F, p, b, q, up, low)
  {
    assert Inside(size, b, b);
  }

  lemma JoinedIn(F: set<int>, keys: set<int>, p: int, b: int, q: int, up: bool, low: bool)
    requires F <= keys
    ensures Joined(F, p, b, q, up, low) <= keys + {b} + {p}
  {
  }

  lemma InF(F: set<int>, base: int, size: map<int, int>, q: int, p: int)
    requires Apart(F, base, size) && q in F && p in F
    ensures q in size && (q != base ==> size[q] >= 1) && p in size && (p != base ==> size[p] >= 1)
  {
  }

  lemma PlaceFacts(F: set<int>, p: int, b: int)
    requires Before(F, p, b)
    ensures p in F && b !in F && p < b
  {
  }

  // ----------------------------------------------------------------- malloc

  /** morecore never asks for less than 4096 units. */
  function AtLeast(nunits: nat): nat { if nunits < 4096 then 4096 else nunits }

  ghost predicate Fresh(owner: map<int, int>, base: int, hp: int, nu: nat) {
    base < hp && forall u {:trigger u in owner} :: hp <= u < hp + nu ==> u !in owner
  }

  function Region(hp: int, nu: nat): (r: map<int, int>)
    ensures |r| == nu && forall u {:trigger u in r} :: u in r <==> hp <= u < hp + nu
    ensures forall u {:trigger r[u]} :: u in r ==> r[u] == hp
  {
    if nu == 0 then map[] else Region(hp, nu - 1)[hp + nu - 1 := hp]
  }

  lemma Positive(F: set<int>, base: int, ptr: map<int, int>, h: int)
    requires Circle(F, base, ptr) && h in F && 0 < base
    ensures 0 < h
  {
  }

  lemma SameCard(a: map<int, int>, b: map<int, int>)
    requires a.Keys == b.Keys
    ensures |a| == |b|
  {
    assert |a| == |a.Keys| && |b| == |b.Keys|;
  }

  lemma NewHeader(F: set<int>, base: int, size: map<int, int>, live: map<int, int>, owner: map<int, int>, hp: int,
      nu: nat)
    requires Apart(F, base, size) && Tiled(F, base, size, live, owner) && Fresh(owner, base, hp, nu) && 0 < nu
    ensures hp !in F && hp !in live && Apart(F, base, size[hp := nu])
    ensures forall u {:trigger u in owner} :: u in owner ==> owner[u] != hp
  {
    var self := Inside(size, hp, hp);
    forall u {:trigger u in owner} | u in owner ensures owner[u] != hp {
      var there := Inside(size, owner[u], owner[u]);
    }
  }

  /** owner' is `owner` with the units from hp on given to hp. */
  ghost predicate Extended(owner: map<int, int>, owner': map<int, int>, hp: int, nu: nat) {
    forall u {:trigger u in owner'} :: (u in owner' <==> u in owner || hp <= u < hp + nu)
                                       && (u in owner' ==> owner'[u] == if hp <= u < hp + nu then hp else owner[u])
  }

  lemma RegionExtends(owner: map<int, int>, base: int, hp: int, nu: nat)
    requires Fresh(owner, base, hp, nu)
    ensures Extended(owner, owner + Region(hp, nu), hp, nu)
  {
    hide Region;
    forall u {:trigger u in owner} ensures u in Region(hp, nu) <==> hp <= u < hp + nu {
    }
  }

  lemma NewTiles(F: set<int>, base: int, size: map<int, int>, live: map<int, int>, owner: map<int, int>,
      owner': map<int, int>, hp: int, nu: nat)
    requires Tiled(F, base, size, live, owner) && Fresh(owner, base, hp, nu) && 0 < nu && hp !in F && hp !in live
    requires (forall u {:trigger u in owner} :: u in owner ==> owner[u] != hp) && Extended(owner, owner', hp, nu)
    ensures Tiled(F, base, size[hp := nu], live[hp := nu], owner')
  {
    var size', live' := size[hp := nu], live[hp := nu];
    forall h, u {:trigger Inside(size', h, u)} | IsBlock(F, base, live', h) && Inside(size', h, u)
      ensures u in owner' && owner'[u] == h {
      if h != hp {
        assert Inside(size, h, u);
        assert u in owner;
      }
    }
  }

  lemma NewCard(owner: map<int, int>, base: int, hp: int, nu: nat)
    requires Fresh(owner, base, hp, nu)
    ensures |owner + Region(hp, nu)| == |owner| + nu
  {
    hide Region;
    var owner' := owner + Region(hp, nu);
    assert owner'.Keys == owner.Keys + Region(hp, nu).Keys;
    assert owner.Keys !! Region(hp, nu).Keys;
    assert |owner'| == |owner'.Keys| && |owner| == |owner.Keys| && |Region(hp, nu)| == |Region(hp, nu).Keys|;
  }

  /** The headers that malloc's loop has passed: those after freep up to prevp, going round. */
  function Passed(F: set<int>, freep: int, prevp: int): set<int> {
    if freep <= prevp then set x | x in F && freep < x <= prevp else set x | x in F && (freep < x || x <= prevp)
  }

  lemma PassedNext(F: set<int>, base: int, ptr: map<int, int>, freep: int, prevp: int)
    requires Circle(F, base, ptr) && freep in F && prevp in F && prevp in ptr
    ensures var p := ptr[prevp];
            && p in F
            && (p != freep ==> Passed(F, freep, p) == Passed(F, freep, prevp) + {p} && p !in Passed(F, freep, prevp))
            && (p == freep ==> Passed(F, freep, prevp) + {p} == F)
  {
    var p := ptr[prevp];
    if p != freep {
      forall x ensures x in Passed(F, freep, p) <==> x in Passed(F, freep, prevp) + {p} {
      }
    } else {
      forall x ensures x in Passed(F, freep, prevp) + {p} <==> x in F {
      }
    }
  }

  const HEADER := 16   // sizeof(Header)

  /** The units that malloc(nbytes) asks for: the header and enough for nbytes. */
  function Units(nbytes: nat): (n: nat)
    ensures n > 0 && (n - 1) * HEADER >= nbytes && (n - 2) * HEADER < nbytes
  {
    (nbytes + HEADER - 1) / HEADER + 1
  }

  /** No free block has n units. */
  ghost predicate AllSmall(F: set<int>, size: map<int, int>, n: nat) {
    forall h {:trigger h in F} :: h in F && h in size ==> size[h] < n
  }

  /** None of the blocks that malloc's loop has passed has n units. */
  ghost predicate Scanned(F: set<int>, size: map<int, int>, freep: int, prevp: int, n: nat) {
    AllSmall(Passed(F, freep, prevp), size, n)
  }

  /** The block of n units at a is the end of the first free block after freep that is large enough; prevp is the one
      before it. */
  ghost predicate NextFit(F: set<int>, ptr: map<int, int>, size: map<int, int>, freep: int, prevp: int, n: nat,
                          a: int) {
    && prevp in F && prevp in ptr && ptr[prevp] in size && Scanned(F, size, freep, prevp, n)
    && size[ptr[prevp]] >= n && a == ptr[prevp] + size[ptr[prevp]] - n
  }

  lemma IsNextFit(F: set<int>, ptr: map<int, int>, size: map<int, int>, freep: int, prevp: int, n: nat)
    requires prevp in F && prevp in ptr && ptr[prevp] in size && Scanned(F, size, freep, prevp, n)
             && size[ptr[prevp]] >= n
    ensures NextFit(F, ptr, size, freep, prevp, n, ptr[prevp] + size[ptr[prevp]] - n)
  {
  }

  /** Where malloc is: it has asked for more memory, because nothing was large enough, and now something is; or it has
      not, and the list is as it was or just initialised. */
  ghost predicate SoFar(F0: set<int>, ptr0: map<int, int>, size0: map<int, int>, freep0: int, F: set<int>,
                        ptr: map<int, int>, size: map<int, int>, freep: int, n: nat, more: bool) {
    if more then !AllSmall(F, size, n) && (freep0 == 0 || AllSmall(F0, size0, n))
    else if freep0 != 0 then F == F0 && ptr == ptr0 && size == size0 && freep == freep0
    else AllSmall(F, size, n)
  }

  lemma Searching(F0: set<int>, ptr0: map<int, int>, size0: map<int, int>, freep0: int, F: set<int>, ptr: map<int, int>,
                  size: map<int, int>, freep: int, n: nat)
    requires if freep0 != 0 then F == F0 && ptr == ptr0 && size == size0 && freep == freep0 else AllSmall(F, size, n)
    ensures SoFar(F0, ptr0, size0, freep0, F, ptr, size, freep, n, false)
  {
  }

  lemma Found(F0: set<int>, ptr0: map<int, int>, size0: map<int, int>, freep0: int, F: set<int>, ptr: map<int, int>,
              size: map<int, int>, freep: int, n: nat, more: bool)
    requires SoFar(F0, ptr0, size0, freep0, F, ptr, size, freep, n, more) && !AllSmall(F, size, n)
    ensures if more then freep0 == 0 || AllSmall(F0, size0, n)
            else freep0 != 0 && F == F0 && ptr == ptr0 && size == size0 && freep == freep0
  {
    hide AllSmall;
  }

  lemma NotFound(F0: set<int>, ptr0: map<int, int>, size0: map<int, int>, freep0: int, F: set<int>, ptr: map<int, int>,
                 size: map<int, int>, freep: int, n: nat, more: bool)
    requires SoFar(F0, ptr0, size0, freep0, F, ptr, size, freep, n, more) && AllSmall(F, size, n)
    ensures !more && (freep0 == 0 || AllSmall(F0, size0, n))
  {
    hide AllSmall;
  }

  lemma GotMore(F0: set<int>, ptr0: map<int, int>, size0: map<int, int>, freep0: int, F: set<int>, ptr: map<int, int>,
                size: map<int, int>, freep: int, n: nat)
    requires !AllSmall(F, size, n) && (freep0 == 0 || AllSmall(F0, size0, n))
    ensures SoFar(F0, ptr0, size0, freep0, F, ptr, size, freep, n, true)
  {
  }

  lemma ScanStart(F: set<int>, size: map<int, int>, freep: int, n: nat)
    ensures Scanned(F, size, freep, freep, n)
  {
    PassedNone(F, freep);
  }

  lemma OnlyHead(F: set<int>, base: int, size: map<int, int>, n: nat)
    requires F == {base} && base in size && size[base] == 0 && n > 0
    ensures AllSmall(F, size, n)
  {
  }

  lemma Fits(F: set<int>, size: map<int, int>, h: int, n: nat)
    requires h in F && h in size && size[h] >= n
    ensures !AllSmall(F, size, n)
  {
  }

  lemma ScanNext(F: set<int>, base: int, ptr: map<int, int>, size: map<int, int>, freep: int, prevp: int, n: nat)
    requires Circle(F, base, ptr) && freep in F && prevp in F && prevp in ptr && Scanned(F, size, freep, prevp, n)
    requires ptr[prevp] in size && size[ptr[prevp]] < n
    ensures var p := ptr[prevp];
            if p == freep then AllSmall(F, size, n)
            else p in F && Scanned(F, size, freep, p, n) && |F - Passed(F, freep, p)| < |F - Passed(F, freep, prevp)|
  {
    hide Circle, Passed;
    PassedNext(F, base, ptr, freep, prevp);
    var p := ptr[prevp];
    if p != freep {
      Fewer(F - Passed(F, freep, p), F - Passed(F, freep, prevp), p);
    }
  }

  lemma PassedNone(F: set<int>, freep: int)
    ensures Passed(F, freep, freep) == {}
  {
  }

  lemma NotBase(F: set<int>, base: int, size: map<int, int>, p: int)
    requires Apart(F, base, size) && p in F && p in size && size[p] > 0
    ensures p != base
  {
  }

  function Carved(owner: map<int, int>, a: int, n: nat): (r: map<int, int>)
    ensures r.Keys == owner.Keys && forall u {:trigger r[u]} ::
              u in owner ==> r[u] == if a <= u < a + n then a else owner[u]
  {
    map u | u in owner :: if a <= u < a + n then a else owner[u]
  }

  /** An exact fit leaves the free list. */
  lemma TakenWhole(F: set<int>, base: int, ptr: map<int, int>, size: map<int, int>, live: map<int, int>,
      owner: map<int, int>, prevp: int, n: nat)
    requires Circle(F, base, ptr) && Apart(F, base, size) && Tiled(F, base, size, live, owner) && prevp in F
             && prevp in ptr && ptr[prevp] in ptr
    requires var p := ptr[prevp]; p in F && p != base && p in size && size[p] == n > 0
    ensures var p := ptr[prevp];
            && prevp in F - {p} && p !in live && Circle(F - {p}, base, ptr[prevp := ptr[p]])
            && Apart(F - {p}, base, size)
            && Tiled(F - {p}, base, size, live[p := n], owner)
  {
    var p := ptr[prevp];
    CircleRemove(F, base, ptr, prevp);
    forall h ensures IsBlock(F - {p}, base, live[p := n], h) <==> IsBlock(F, base, live, h) {
    }
  }

  /** The tail of a larger block is allocated. */
  lemma TakenTail(F: set<int>, base: int, size: map<int, int>, live: map<int, int>, owner: map<int, int>, p: int,
      n: nat)
    requires Apart(F, base, size) && Tiled(F, base, size, live, owner) && p in F && p != base && p in size
             && size[p] > n > 0
    ensures var a := p + size[p] - n;
            var size' := size[p := size[p] - n][a := n];
            && a !in live && a !in F && Apart(F, base, size')
            && Tiled(F, base, size', live[a := n], Carved(owner, a, n))
  {
    hide Carved;
    var a := p + size[p] - n;
    TailHeader(F, base, size, live, owner, p, a);
    TailTiles(F, base, size, live, owner, Carved(owner, a, n), p, a, n);
  }

  lemma TailHeader(F: set<int>, base: int, size: map<int, int>, live: map<int, int>, owner: map<int, int>, p: int,
      a: int)
    requires Tiled(F, base, size, live, owner) && Apart(F, base, size) && p in F && p != base && Inside(size, p, a)
             && p < a
    ensures a !in live && a !in F && a in owner && owner[a] == p
    ensures forall u {:trigger u in owner} :: u in owner ==> owner[u] != a
  {
    var self := Inside(size, a, a);
    forall u {:trigger u in owner} | u in owner ensures owner[u] != a {
      var there := Inside(size, owner[u], owner[u]);
    }
  }

  lemma TailTiles(F: set<int>, base: int, size: map<int, int>, live: map<int, int>, owner: map<int, int>,
      owner': map<int, int>, p: int, a: int, n: nat)
    requires Tiled(F, base, size, live, owner) && p in F && p != base && p in size && size[p] > n > 0
             && a == p + size[p] - n
    requires a !in live && a !in F && owner'.Keys == owner.Keys
    requires forall u {:trigger u in owner} ::
               u in owner ==> owner[u] != a && owner'[u] == if a <= u < a + n then a else owner[u]
    ensures Tiled(F, base, size[p := size[p] - n][a := n], live[a := n], owner')
  {
    var size', live' := size[p := size[p] - n][a := n], live[a := n];
    forall h, u {:trigger Inside(size', h, u)} | IsBlock(F, base, live', h) && Inside(size', h, u)
      ensures u in owner' && owner'[u] == h {
      if h == a || h == p {
        assert Inside(size, p, u);
      } else {
        assert Inside(size, h, u);
        var other := Inside(size, p, u);
      }
      assert u in owner;
    }
    forall u {:trigger u in owner'} {:trigger owner'[u]} | u in owner'
      ensures IsBlock(F, base, live', owner'[u]) && Inside(size', owner'[u], u) && base < u
    {
      assert u in owner;
      var there := Inside(size, p, u);
    }
  }

  // ------------------------------------------------------- the list as a list

  function Steps(ptr: map<int, int>, h: int, k: nat): int {
    if k == 0 then h else
    var g := Steps(ptr, h, k - 1);
    if g in ptr then ptr[g] else 0
  }

  lemma {:induction false} Largest(F: set<int>, h: int) returns (m: int)
    requires exists x :: x in F && x < h
    ensures m in F && m < h && forall x {:trigger x in F} :: x in F && x < h ==> x <= m
    decreases F
  {
    var x :| x in F && x < h;
    m := x;
    if exists y :: y in F - {x} && y < h {
      var l := Largest(F - {x}, h);
      m := if l < x then x else l;
    }
    forall y {:trigger y in F} | y in F && y < h ensures y <= m {
      if y != x {
        assert y in F - {x};
      }
    }
  }

  lemma LinkToNext(F: set<int>, base: int, ptr: map<int, int>, m: int, h: int)
    requires Circle(F, base, ptr) && m in F && m in ptr && h in F && m < h && forall x {:trigger x in F} ::
               x in F && x < h ==> x <= m
    ensures ptr[m] == h
  {
    var g := ptr[m];
  }

  lemma LastLink(F: set<int>, base: int, ptr: map<int, int>, h: int)
    requires Circle(F, base, ptr) && h in F && h in ptr && forall x {:trigger x in F} :: x in F ==> x <= h
    ensures ptr[h] == base
  {
    var g := ptr[h];
  }

  lemma FromBase(F: set<int>, base: int, ptr: map<int, int>, h: int)
    requires Circle(F, base, ptr) && h in F
    ensures base in F && base <= h
  {
  }

  /** Every free block is reached from the list head by following the links, through the blocks before it in
      address order; the last one links back to the head. */
  lemma {:induction false} OnTheCircle(F: set<int>, base: int, ptr: map<int, int>, h: int) returns (k: nat)
    requires Circle(F, base, ptr) && F <= ptr.Keys && h in F
    ensures Steps(ptr, base, k) == h && k == |Between(F, base - 1, h)|
    ensures (forall x {:trigger x in F} :: x in F ==> x <= h) ==> Steps(ptr, base, k + 1) == base
    decreases |Between(F, base - 1, h)|
  {
    hide Circle;
    FromBase(F, base, ptr, h);
    assert h in ptr;
    if forall x {:trigger x in F} :: x in F ==> x <= h {
      LastLink(F, base, ptr, h);
    }
    if h == base {
      k := 0;
      assert Between(F, base - 1, h) == {};
    } else {
      var m := Largest(F, h);
      assert m in ptr;
      FromBase(F, base, ptr, m);
      LinkToNext(F, base, ptr, m, h);
      assert Between(F, base - 1, h) == Between(F, base - 1, m) + {m};
      k := OnTheCircle(F, base, ptr, m);
      k := k + 1;
    }
  }
}
