/** kernel/kalloc.c, kernel/vm.c and the parts of kernel/proc.c that build and free address spaces. */
module VmCode {
  import opened VmSpec

  const JUNK_FREED := 0x0101_0101_0101_0101
  const JUNK_TAKEN := 0x0505_0505_0505_0505

  datatype Outcome = Done | NoMem | Panic

  class Kernel {
    const lo: int   // the first whole page after the kernel
    const hi: int   // PHYSTOP / PGSIZE
    var mem: Memory
    var head: int   // kmem.freelist

    ghost var role: map<int, Role>      // what each page is used for
    ghost var flist: seq<int>           // the free list from its bottom up
    ghost var node: map<Key, int>       // the page-table pages
    ghost var pt: map<Place, int>       // the partial map the page tables stand for

    /** kinit: every page between the end of the kernel and PHYSTOP is put on the free list. `ram` is what
        memory holds at that time. */
    constructor (lo: int, hi: int, ram: Memory)
      requires 0 < lo <= hi && (forall f :: f in ram <==> lo <= f < hi) && forall f :: f in ram ==> |ram[f]| == ENTRIES
      ensures this.lo == lo && this.hi == hi && Valid() && node == map[] && pt == map[]
      ensures forall f :: lo <= f < hi ==> f in role && role[f].Free?
    {
      this.lo, this.hi, mem, head := lo, hi, ram, 0;
      role, flist, node, pt := map f | f in ram :: Held, [], map[], map[];
      new;
      Freerange();
    }

    /** freerange, over the whole of memory. */
    method Freerange()
      requires Frames(lo, hi, mem, role) && FreeList(mem, role, head, flist) && node == map[] && pt == map[]
      requires forall f :: f in role ==> role[f] == Held
      modifies this`mem, this`head, this`role, this`flist
      ensures Valid() && forall f :: lo <= f < hi ==> f in role && role[f].Free?
    {
      hide FreeList;
      var p := lo;
      while p + 1 <= hi
        invariant lo <= p <= hi && Frames(lo, hi, mem, role) && FreeList(mem, role, head, flist)
        invariant forall f {:trigger role[f]} :: f in role ==> if f < p then role[f].Free? else role[f] == Held
      {
        var ok := Kfree(p * PGSIZE);
        assert ok;
        p := p + 1;
      }
    }

    ghost predicate Tree()
      reads this
    {
      && Frames(lo, hi, mem, role) && FreeList(mem, role, head, flist)
      && Nodes(role, node) && Links(mem, node, NOWHERE) && Refines(mem, node, pt)
    }

    ghost predicate Valid()
      reads this
    {
      Tree() && Leaves(role, pt)
    }

    // ------------------------------------------------------------ kalloc, kfree

    /** kalloc: the page number, 0 if there is no free page. */
    method Kalloc() returns (f: int)
      requires Tree()
      modifies this`mem, this`head, this`role, this`flist
      ensures Tree()
      ensures f == 0 ==> flist == [] && unchanged(this)
      ensures f != 0 ==>
                f in old(role) && old(role)[f].Free? && role == old(role)[f := Held]
                && mem == old(mem)[f := Filled(JUNK_TAKEN)]
      ensures f != 0 ==> |flist| == |old(flist)| - 1
    {
      hide FreeList, Nodes, Links, Refines;
      f := head;
      Headed(mem, role, head, flist);
      if f != 0 {
        Pop(mem, role, head, flist, Held);
        NodesKept(role, node, f, Held);
        TreeKept(mem, role, node, pt, NOWHERE, f, Filled(JUNK_TAKEN));
        FreeListKept(mem, role[f := Held], Word(mem, f, 0), flist[..|flist| - 1], f, Filled(JUNK_TAKEN), Held);
        assert role[f := Held][f := Held] == role[f := Held];
        head := mem[f][0];
        flist, role := flist[..|flist| - 1], role[f := Held];
        mem := mem[f := Filled(JUNK_TAKEN)];
      }
    }

    /** kfree. A false result stands for its panic. */
    method Kfree(pa: nat) returns (ok: bool)
      requires Frames(lo, hi, mem, role) && FreeList(mem, role, head, flist)
      requires pa % PGSIZE == 0 && lo <= pa / PGSIZE < hi ==> role[pa / PGSIZE] == Held
      modifies this`mem, this`head, this`role, this`flist
      ensures ok <==> pa % PGSIZE == 0 && lo <= pa / PGSIZE < hi
      ensures !ok ==> unchanged(this)
      ensures Frames(lo, hi, mem, role) && FreeList(mem, role, head, flist)
      ensures ok ==> flist == old(flist) + [pa / PGSIZE] && role == old(role)[pa / PGSIZE := Free(|old(flist)|)]
      ensures ok ==> mem == old(mem)[pa / PGSIZE := Filled(JUNK_FREED)[0 := old(head)]]
    {
      hide FreeList;
      if pa % PGSIZE != 0 || pa / PGSIZE < lo || pa / PGSIZE >= hi {
        return false;
      }
      var f := pa / PGSIZE;
      var page := Filled(JUNK_FREED)[0 := head];
      Push(mem, role, head, flist, f, page);
      mem := mem[f := page];
      head := f;
      flist, role := flist + [f], role[f := Free(|flist|)];
      ok := true;
    }

    // --------------------------------------------------------------- walk

    /** One level of walk: the page that entry i of node k points at, allocated if asked for; 0 if
        there is none. */
    method Descend(ghost k: Key, t: int, i: nat, alloc: bool) returns (t': int)
      requires Tree() && k in node && node[k] == t && 0 < k.level && i < ENTRIES
      modifies this`mem, this`head, this`role, this`flist, this`node
      ensures Tree() && Grew(old(role), role, k.root) && DataKept(old(mem), mem, old(role), k.root)
      ensures t' != 0 ==> Child(k, i) in node && node[Child(k, i)] == t'
      ensures t' == 0 ==> Child(k, i) !in node && node == old(node) && (alloc ==> flist == [])
      ensures node == old(node) || node == old(node)[Child(k, i) := t']
      ensures !alloc ==> unchanged(this)
      ensures |flist| == |old(flist)| - if Child(k, i) in node && Child(k, i) !in old(node) then 1 else 0
    {
      hide FreeList, Nodes, Links, Refines, Entry;
      EntryOf(mem, role, node, k, i);
      var w := mem[t][i];
      if Present(w) {
        t' := FrameOf(w);
      } else if !alloc {
        t' := 0;
      } else {
        t' := Kalloc();
        if t' != 0 {
          NewNode(k, t, i, t');
        }
      }
    }

    /** memset(pagetable, 0, PGSIZE); *pte = PA2PTE(pagetable) | PTE_V */
    method NewNode(ghost k: Key, t: int, i: nat, f: int)
      requires Tree() && k in node && node[k] == t && 0 < k.level && i < ENTRIES && f in role && role[f] == Held
               && Child(k, i) !in node
      modifies this`mem, this`role, this`node
      ensures Tree() && role == old(role)[f := Node(Child(k, i))] && node == old(node)[Child(k, i) := f]
      ensures t in old(mem) && t != f && mem == old(mem)[f := Filled(0)][t := mem[t]]
    {
      hide FreeList, Nodes, Links, Refines, Entry;
      NodePage(role, node, k);
      AddNodeNodes(role, node, k, i, f);
      AddNodeLinks(mem, role, node, k, i, f);
      AddNodeRefines(mem, role, node, pt, k, i, f);
      FreeListKept(mem, role, head, flist, f, Filled(0), Node(Child(k, i)));
      mem := mem[f := Filled(0)];
      role := role[f := Node(Child(k, i))];
      FreeListKept(mem, role, head, flist, t, mem[t][i := Entry(f, 0)], role[t]);
      assert role[t := role[t]] == role;
      mem := mem[t := mem[t][i := Entry(f, 0)]];
      node := node[Child(k, i) := f];
    }

    /** walk: the page and index of the level-0 entry for va, page 0 if there is none. */
    method Walk(root: int, va: nat, alloc: bool) returns (t: int, i: nat)
      requires Tree() && RootKey(root) in node && va < MAXPAGE * PGSIZE
      modifies this`mem, this`head, this`role, this`flist, this`node
      ensures Tree() && Grew(old(role), role, root) && DataKept(old(mem), mem, old(role), root) && RootKey(root) in node
      ensures t != 0 ==> var p := Place(root, va / PGSIZE);
              LeafKey(p) in node && node[LeafKey(p)] == t && i == p.vpn % ENTRIES
      ensures t == 0 ==> Place(root, va / PGSIZE) !in pt
      ensures !alloc ==> unchanged(this)
      ensures t == 0 <==> Lacks(old(node), Place(root, va / PGSIZE)) > if alloc then |old(flist)| else 0
      ensures t != 0 ==> node.Keys == old(node).Keys + Path(Place(root, va / PGSIZE))
                         && |flist| == |old(flist)| - Lacks(old(node), Place(root, va / PGSIZE))
    {
      hide FreeList, Nodes, Links, Refines, Grew, DataKept, PathKey, PX, Child;
      ghost var p := Place(root, va / PGSIZE);
      PathStep(root, va);
      RootPage(role, node, root);
      t, i := root, 0;
      GrewRefl(mem, role, root);
      var level := 2;
      while level > 0
        invariant 0 <= level <= 2 && Tree() && Grew(old(role), role, root) && DataKept(old(mem), mem, old(role), root)
        invariant PathKey(p, level) in node && node[PathKey(p, level)] == t != 0 && RootKey(root) in node
        invariant !alloc ==> unchanged(this)
        invariant node.Keys == old(node).Keys + (if level == 2 then {} else if level == 1 then {PathKey(p, 1)}
                    else Path(p))
        invariant |flist| == |old(flist)| - (if level < 2 && PathKey(p, 1) !in old(node) then 1 else 0)
                                          - (if level < 1 && PathKey(p, 0) !in old(node) then 1 else 0)
      {
        ghost var m1, r1 := mem, role;
        t := Descend(PathKey(p, level), t, PX(level, va), alloc);
        GrewTrans(old(role), r1, role, root);
        DataKeptTrans(old(mem), old(role), m1, r1, mem, root);
        if t == 0 {
          Unreached(mem, role, node, pt, p, level - 1);
          if level == 2 {
            NoWay(role, node, p);
          }
          return;
        }
        level := level - 1;
      }
      i := PX(0, va);
    }

    /** *pte = w for the entry of virtual page p. */
    method StoreEntry(ghost p: Place, t: int, i: nat, w: int)
      requires Tree() && LeafKey(p) in node && node[LeafKey(p)] == t && i == p.vpn % ENTRIES
      modifies this`mem, this`pt
      ensures Tree() && pt == if Present(w) then old(pt)[p := w] else old(pt) - {p}
      ensures t in role && role[t] == Node(LeafKey(p)) && t in old(mem) && mem == old(mem)[t := mem[t]]
    {
      hide FreeList, Nodes, Links, Refines;
      NodePage(role, node, LeafKey(p));
      StoreLeaf(mem, role, node, pt, p, w);
      FreeListKept(mem, role, head, flist, t, mem[t][i := w], role[t]);
      assert role[t := role[t]] == role;
      mem := mem[t := mem[t][i := w]];
      pt := if Present(w) then pt[p := w] else pt - {p};
    }

    /** One trip of the loop in mappages. */
    method MapPage(root: int, va: nat, f: int, perm: nat) returns (r: Outcome)
      requires Tree() && RootKey(root) in node && perm < 1024 && va < MAXPAGE * PGSIZE && 0 <= f
      modifies this`mem, this`head, this`role, this`flist, this`node, this`pt
      ensures Tree() && Grew(old(role), role, root) && DataKept(old(mem), mem, old(role), root) && RootKey(root) in node
      ensures r == Done ==>
                Place(root, va / PGSIZE) !in old(pt) && pt == old(pt)[Place(root, va / PGSIZE) := Entry(f, perm)]
      ensures r == NoMem ==> Place(root, va / PGSIZE) !in old(pt) && pt == old(pt)
      ensures r == NoMem <==> |old(flist)| < Lacks(old(node), Place(root, va / PGSIZE))
      ensures r == Done ==> node.Keys == old(node).Keys + Path(Place(root, va / PGSIZE))
                            && |flist| == |old(flist)| - Lacks(old(node), Place(root, va / PGSIZE))
      ensures r == Panic ==> Place(root, va / PGSIZE) in old(pt) && pt == old(pt)
    {
      hide FreeList, Nodes, Links, Refines, Grew, DataKept, Entry, Present;
      var t, i := Walk(root, va, true);
      if t == 0 {
        return NoMem;
      }
      ghost var p := Place(root, va / PGSIZE);
      EntryAt(mem, role, node, pt, p);
      if Present(mem[t][i]) {
        return Panic;
      }
      EntryFacts(f, perm);
      ghost var m1 := mem;
      StoreEntry(p, t, i, Entry(f, perm));
      NodeWritten(old(mem), old(role), m1, role, root, t, mem[t], LeafKey(p));
      r := Done;
    }

    /** mappages. `done` is the number of pages mapped; a failure leaves them mapped. */
    method Mappages(root: int, va: nat, size: nat, pa: nat, perm: nat) returns (r: Outcome, ghost done: nat)
      requires Tree() && RootKey(root) in node && perm < 1024
      modifies this`mem, this`head, this`role, this`flist, this`node, this`pt
      ensures Tree() && Grew(old(role), role, root) && DataKept(old(mem), mem, old(role), root) && RootKey(root) in node
      ensures r != Panic ==> va % PGSIZE == 0 && size % PGSIZE == 0 && size > 0
      ensures r == Done ==> done == size / PGSIZE && va + size <= MAXPAGE * PGSIZE
      ensures r == NoMem ==> done < size / PGSIZE
      ensures var v, n, have := va / PGSIZE, size / PGSIZE, Have(old(node), root);
              && (r == NoMem ==> |old(flist)| < Need(have, v, n, Range(v, n), 0))
              && (r == Done ==> |flist| == |old(flist)| - Need(have, v, n, Range(v, n), 0)
                                && Have(node, root) == Reach(have, v, n, Range(v, n)))
      ensures r == Panic ==>
                va % PGSIZE != 0 || size % PGSIZE != 0 || size == 0
                || (done < size / PGSIZE
                    && (va / PGSIZE + done >= MAXPAGE || Place(root, va / PGSIZE + done) in old(pt)))
      ensures Unused(old(pt), root, va / PGSIZE, done)
      ensures pt == Mapped(old(pt), root, va / PGSIZE, done, pa / PGSIZE, perm)
    {
      hide FreeList, Nodes, Links, Refines, Grew, DataKept, Entry, Mapped, Budget, Need, Reach, Have, Range, Lacks,
          Path,
        Missing, Way;
      done := 0;
      ghost var v, n, have := va / PGSIZE, size / PGSIZE, Have(node, root);
      ghost var want := Range(v, n);
      GrewRefl(mem, role, root);
      MappedNone(pt, root, va / PGSIZE, pa / PGSIZE, perm);
      if va % PGSIZE != 0 || size % PGSIZE != 0 || size == 0 {
        return Panic, 0;
      }
      var a, last, f := va, va + size - PGSIZE, pa / PGSIZE;
      assert size == PGSIZE * (size / PGSIZE);
      BudgetStart(|flist|, have, v, n, want, 0);
      while true
        invariant Tree() && Grew(old(role), role, root) && DataKept(old(mem), mem, old(role), root)
                  && RootKey(root) in node
        invariant a == va + done * PGSIZE && a <= last && f == pa / PGSIZE + done
        invariant done < n && Budget(|old(flist)|, have, |flist|, Have(node, root), v, done, n, want, 0)
        invariant Unused(old(pt), root, va / PGSIZE, done)
        invariant pt == Mapped(old(pt), root, va / PGSIZE, done, pa / PGSIZE, perm)
        decreases last - a
      {
        if a >= MAXPAGE * PGSIZE {
          return Panic, done;
        }
        ghost var m1, r1, f1, n1 := mem, role, flist, node;
        ghost var p := Place(root, a / PGSIZE);
        assert a / PGSIZE == v + done && v + done in want;
        LacksMissing(node, p);
        r := MapPage(root, a, f, perm);
        if r == Done {
          HaveMore(n1, node, p);
          BudgetStep(|old(flist)|, have, |f1|, Have(n1, root), |flist|, Have(node, root), v, done, n, want, 0);
        } else if r == NoMem {
          BudgetShort(|old(flist)|, have, |f1|, Have(n1, root), v, done, n, want, 0);
        }
        GrewTrans(old(role), r1, role, root);
        DataKeptTrans(old(mem), old(role), m1, r1, mem, root);
        MappedAt(old(pt), root, va / PGSIZE, done, pa / PGSIZE, perm, Place(root, a / PGSIZE));
        if r != Done {
          return;
        }
        MappedMore(old(pt), root, va / PGSIZE, done, pa / PGSIZE, perm);
        done := done + 1;
        if a == last {
          break;
        }
        a, f := a + PGSIZE, f + 1;
      }
      BudgetEnd(|old(flist)|, have, |flist|, Have(node, root), v, n, want, 0);
    }

    // ------------------------------------------------------------- uvmunmap

    /** kfree of a mapped user page, and the store that clears its entry. */
    method ReleasePage(ghost p: Place, t: int, i: nat)
      requires Valid() && p in pt && p.vpn < USERTOP && LeafKey(p) in node && node[LeafKey(p)] == t
               && i == p.vpn % ENTRIES
      requires t in mem && |mem[t]| == ENTRIES && mem[t][i] == pt[p]
      modifies this`mem, this`head, this`role, this`flist, this`pt
      ensures Valid() && pt == old(pt) - {p} && Released(old(mem), old(role), mem, role, p.root)
    {
      hide FreeList, Nodes, Links, Refines, Leaves;
      var f := FrameOf(mem[t][i]);
      UnmapLeaf(role, pt, p);
      NodePage(role, node, LeafKey(p));
      FreeListKept(mem, role, head, flist, f, mem[f], Held);
      NodesKept(role, node, f, Held);
      assert mem[f := mem[f]] == mem;
      role := role[f := Held];
      ghost var r1 := role;
      var ok := Kfree(f * PGSIZE);
      assert ok;
      TreeKept(old(mem), r1, node, pt, NOWHERE, f, mem[f]);
      NodesKept(r1, node, f, role[f]);
      LeavesKept(r1, pt - {p}, f, role[f]);
      StoreEntry(p, t, i, 0);
    }

    /** One trip of the loop in uvmunmap. */
    method UnmapPage(root: int, va: nat, doFree: bool)
      requires Valid() && RootKey(root) in node && va < MAXPAGE * PGSIZE && (doFree <==> va / PGSIZE < USERTOP)
      modifies this`mem, this`head, this`role, this`flist, this`node, this`pt
      ensures Valid() && node == old(node) && pt == old(pt) - {Place(root, va / PGSIZE)}
      ensures Released(old(mem), old(role), mem, role, root)
    {
      hide FreeList, Nodes, Links, Refines, Leaves, Released, Grew, DataKept;
      ReleasedRefl(mem, role, root);
      ghost var p := Place(root, va / PGSIZE);
      var t, i := Walk(root, va, false);
      if t == 0 {
        return;
      }
      EntryAt(mem, role, node, pt, p);
      if !Present(mem[t][i]) {
        return;
      }
      if doFree {
        ReleasePage(p, t, i);
      } else {
        UnmapLeaf(role, pt, p);
        StoreEntry(p, t, i, 0);
        NodeReleased(old(mem), role, root, t, mem[t], LeafKey(p));
      }
    }

    /** uvmunmap: removes exactly its range, and frees the pages if asked to. A false result stands for
        the panic. */
    method Uvmunmap(root: int, va: nat, npages: nat, doFree: bool) returns (ok: bool)
      requires Valid() && RootKey(root) in node && va / PGSIZE + npages <= MAXPAGE
      requires if doFree then va / PGSIZE + npages <= USERTOP else va / PGSIZE >= USERTOP
      modifies this`mem, this`head, this`role, this`flist, this`node, this`pt
      ensures ok <==> va % PGSIZE == 0
      ensures Valid() && node == old(node) && Released(old(mem), old(role), mem, role, root)
      ensures pt == if ok then Unmapped(old(pt), root, va / PGSIZE, npages) else old(pt)
    {
      hide FreeList, Nodes, Links, Refines, Leaves, Released, Unmapped;
      ReleasedRefl(mem, role, root);
      UnmappedStep(pt, root, va / PGSIZE, 0);
      if va % PGSIZE != 0 {
        return false;
      }
      ghost var done := 0;
      var a := va;
      while a < va + npages * PGSIZE
        invariant 0 <= done <= npages && a == va + done * PGSIZE
        invariant Valid() && node == old(node) && Released(old(mem), old(role), mem, role, root)
        invariant pt == Unmapped(old(pt), root, va / PGSIZE, done)
        decreases npages - done
      {
        ghost var m1, r1 := mem, role;
        assert a / PGSIZE == va / PGSIZE + done;
        UnmapPage(root, a, doFree);
        ReleasedTrans(old(mem), old(role), m1, r1, mem, role, root);
        UnmappedStep(old(pt), root, va / PGSIZE, done);
        done := done + 1;
        a := a + PGSIZE;
      }
      ok := true;
    }

    /** uvmdealloc. */
    method Uvmdealloc(root: int, oldsz: nat, newsz: nat) returns (r: nat)
      requires Valid() && RootKey(root) in node && (newsz < oldsz ==> RoundUp(oldsz) <= USERTOP)
      modifies this`mem, this`head, this`role, this`flist, this`node, this`pt
      ensures r == if newsz >= oldsz then oldsz else newsz
      ensures Valid() && node == old(node) && Released(old(mem), old(role), mem, role, root)
      ensures pt == if RoundUp(newsz) < RoundUp(oldsz) then Unmapped(old(pt), root, RoundUp(newsz),
                RoundUp(oldsz) - RoundUp(newsz)) else old(pt)
    {
      hide FreeList, Nodes, Links, Refines, Leaves, Released, Unmapped;
      ReleasedRefl(mem, role, root);
      if newsz >= oldsz {
        RoundUpMono(oldsz, newsz);
        return oldsz;
      }
      if RoundUp(newsz) < RoundUp(oldsz) {
        var ok := Uvmunmap(root, RoundUp(newsz) * PGSIZE, RoundUp(oldsz) - RoundUp(newsz), true);
      }
      r := newsz;
    }

    // ------------------------------------------------------- growing memory

    /** kalloc, a fill of the new page with `page`, and mappages, with the kfree that follows if
        mappages fails: what uvmalloc, uvmcopy and vmfault do for one page. 0 if fewer pages are free than
        the page and the nodes missing on the way to it. */
    method AllocPage(root: int, va: nat, page: Page, perm: nat) returns (f: int)
      requires Valid() && RootKey(root) in node && va % PGSIZE == 0 && va / PGSIZE < USERTOP && perm < 1024
               && |page| == ENTRIES
      requires Place(root, va / PGSIZE) !in pt
      modifies this`mem, this`head, this`role, this`flist, this`node, this`pt
      ensures Valid() && RootKey(root) in node && Took(old(mem), old(role), mem, role, root)
      ensures f == 0 ==> pt == old(pt)
      ensures var have := Have(old(node), root);
              && (f == 0 <==> |old(flist)| < 1 + Missing(have, va / PGSIZE))
              && (f != 0 ==> |flist| == |old(flist)| - 1 - Missing(have, va / PGSIZE)
                             && Have(node, root) == have + Way(va / PGSIZE))
      ensures f != 0 ==>
                f in role && old(role)[f].Free? && f in mem && mem[f] == page
                && pt == old(pt)[Place(root, va / PGSIZE) := Entry(f, perm)]
    {
      hide FreeList, Nodes, Links, Refines, Leaves, Took, Grew, DataKept, Entry, Need, Reach, Have, Range, Missing, Way;
      ghost var p := Place(root, va / PGSIZE);
      OneNeed(Have(node, root), va / PGSIZE);
      TookRefl(mem, role, root);
      f := TakePage(page);
      if f == 0 {
        return;
      }
      ghost var m1, r1 := mem, role;
      var r;
      ghost var done;
      r, done := Mappages(root, va, PGSIZE, f * PGSIZE, perm);
      GrewLeaves(r1, role, old(pt), root);
      HeldKept(m1, r1, mem, role, root, f);
      OnePage(old(pt), root, va / PGSIZE, f, perm);
      EntryFacts(f, perm);
      ghost var m2, r2 := mem, role;
      if r != Done {
        FreeHeld(f);
        TookPage(old(mem), old(role), m1, r1, m2, r2, root, f, page, mem[f], role[f]);
        f := 0;
      } else {
        Adopt(old(pt), p, f, Entry(f, perm));
        assert mem[f := page] == mem;
        TookPage(old(mem), old(role), m1, r1, m2, r2, root, f, page, page, Leaf(p));
      }
    }

    /** kalloc, and a fill of the new page with `page`. */
    method TakePage(page: Page) returns (f: int)
      requires Valid() && |page| == ENTRIES
      modifies this`mem, this`head, this`role, this`flist
      ensures Valid()
      ensures f == 0 ==> flist == [] && unchanged(this)
      ensures f != 0 ==>
                f in old(role) && old(role)[f].Free? && role == old(role)[f := Held] && mem == old(mem)[f := page]
      ensures f != 0 ==> |flist| == |old(flist)| - 1
    {
      hide FreeList, Nodes, Links, Refines, Leaves;
      f := Kalloc();
      if f != 0 {
        LeavesKept(old(role), pt, f, Held);
        TreeKept(mem, role, node, pt, NOWHERE, f, page);
        FreeListKept(mem, role, head, flist, f, page, Held);
        assert role[f := Held] == role;
        mem := mem[f := page];
      }
    }

    /** kfree of a page in the kernel's hands. */
    method FreeHeld(f: int)
      requires Valid() && f in role && role[f] == Held
      modifies this`mem, this`head, this`role, this`flist
      ensures Valid() && role == old(role)[f := Free(|old(flist)|)] && |flist| == |old(flist)| + 1
      ensures f in mem && mem == old(mem)[f := mem[f]]
    {
      hide FreeList, Nodes, Links, Refines, Leaves;
      var ok := Kfree(f * PGSIZE);
      TreeKept(old(mem), old(role), node, pt, NOWHERE, f, mem[f]);
      NodesKept(old(role), node, f, role[f]);
      LeavesKept(old(role), pt, f, role[f]);
    }

    /** A page that has just been mapped belongs to its virtual page. */
    ghost method Adopt(was: map<Place, int>, p: Place, f: int, w: int)
      requires Tree() && Leaves(role, was) && pt == was[p := w] && p !in was && p.vpn < USERTOP
      requires FrameOf(w) == f && f in role && role[f] == Held
      modifies this`role
      ensures Valid() && role == old(role)[f := Leaf(p)]
    {
      hide FreeList, Nodes, Links, Refines, Leaves;
      MapLeaf(role, was, p, w);
      NodesKept(role, node, f, Leaf(p));
      FreeListKept(mem, role, head, flist, f, mem[f], Leaf(p));
      assert mem[f := mem[f]] == mem;
      role := role[f := Leaf(p)];
    }

    /** The call of uvmdealloc by which uvmalloc takes back the n pages it has mapped. */
    method Rollback(ghost mem0: Memory, ghost role0: map<int, Role>, ghost pt0: map<Place, int>, root: int, a: nat,
        v: nat, ghost n: nat)
      requires Valid() && RootKey(root) in node && a == (v + n) * PGSIZE && v + n <= USERTOP
      requires PagesKept(mem0, pt0, mem, pt) && Local(mem0, role0, mem, role, root) && Unmapped(pt, root, v, n) == pt0
      modifies this`mem, this`head, this`role, this`flist, this`node, this`pt
      ensures Valid() && RootKey(root) in node && pt == pt0 && PagesKept(mem0, pt0, mem, pt)
              && Local(mem0, role0, mem, role, root)
    {
      hide FreeList, Nodes, Links, Refines, Leaves, Released, Local, PagesKept;
      assert RoundUp(a) == v + n && RoundUp(v * PGSIZE) == v;
      UnmappedStep(pt, root, v, 0);
      var r := Uvmdealloc(root, a, v * PGSIZE);
      ReleasedLocal(old(mem), old(role), mem, role, root);
      LocalTrans(mem0, role0, old(mem), old(role), mem, role, root);
      ReleasedPages(lo, hi, old(mem), old(role), old(pt), mem, role, pt, root);
      PagesBack(mem0, pt0, old(mem), old(pt), mem);
    }

    /** uvmalloc: maps every page between the old and the new size to a zeroed page of its own, or none of them if fewer
        pages are free than that takes. */
    method Uvmalloc(root: int, oldsz: nat, newsz: nat, xperm: nat) returns (r: nat)
      requires Valid() && RootKey(root) in node && newsz <= USERTOP * PGSIZE
               && xperm in {0, PTE_W, PTE_X, PTE_W + PTE_X}
      requires newsz >= oldsz ==> Unused(pt, root, RoundUp(oldsz), RoundUp(newsz) - RoundUp(oldsz))
      modifies this`mem, this`head, this`role, this`flist, this`node, this`pt
      ensures Valid() && RootKey(root) in node && PagesKept(old(mem), old(pt), mem, pt)
      ensures Local(old(mem), old(role), mem, role, root)
      ensures newsz < oldsz ==> r == oldsz && unchanged(this)
      ensures newsz >= oldsz ==> r == newsz || r == 0
      ensures newsz >= oldsz && r == newsz ==>
                var v, n := RoundUp(oldsz), RoundUp(newsz) - RoundUp(oldsz);
                Zeroed(mem, pt, root, v, n, PTE_R + PTE_U + xperm + 1) && Unmapped(pt, root, v, n) == old(pt)
      ensures newsz >= oldsz && r != newsz ==> pt == old(pt)
      ensures newsz >= oldsz ==>
                var v, n := RoundUp(oldsz), RoundUp(newsz) - RoundUp(oldsz);
                var need := Need(Have(old(node), root), v, n, Range(v, n), 1);
                (r != newsz <==> |old(flist)| < need) && (r == newsz ==> |flist| == |old(flist)| - need)
    {
      hide FreeList, Nodes, Links, Refines, Leaves, Took, Released, Local, Unmapped, Zeroed, PagesKept, Entry, Holds,
        Budget, Need, Reach, Have, Range, Missing, Way;
      KeptStart(lo, hi, mem, role, pt, root);
      if newsz < oldsz {
        return oldsz;
      }
      RoundUpMono(oldsz, newsz);
      var v := RoundUp(oldsz);
      ghost var n, all, have := 0, RoundUp(newsz) - v, Have(node, root);
      ghost var want := Range(v, all);
      BudgetStart(|flist|, have, v, all, want, 1);
      UnmappedStep(pt, root, v, 0);
      ZeroedNone(mem, pt, root, v, PTE_R + PTE_U + xperm + 1);
      var a := v * PGSIZE;
      while a < newsz
        invariant a == (v + n) * PGSIZE && v + n <= RoundUp(newsz) && Valid() && RootKey(root) in node
        invariant Budget(|old(flist)|, have, |flist|, Have(node, root), v, n, all, want, 1)
        invariant PagesKept(old(mem), old(pt), mem, pt) && Local(old(mem), old(role), mem, role, root)
        invariant Unmapped(pt, root, v, n) == old(pt) && Zeroed(mem, pt, root, v, n, PTE_R + PTE_U + xperm + 1)
        decreases RoundUp(newsz) - (v + n)
      {
        ghost var m1, r1, p1, f1, h1 := mem, role, pt, |flist|, Have(node, root);
        NotYet(pt, old(pt), root, v, n);
        assert v + n in want;
        var f := AllocPage(root, a, Filled(0), PTE_R + PTE_U + xperm);
        TookPages(lo, hi, m1, r1, p1, mem, role, pt, root);
        TookLocal(m1, r1, mem, role, root);
        PagesKeptTrans(old(mem), old(pt), m1, p1, mem, pt);
        LocalTrans(old(mem), old(role), m1, r1, mem, role, root);
        if f == 0 {
          BudgetShort(|old(flist)|, have, f1, h1, v, n, all, want, 1);
          assert newsz > 0;
          Rollback(old(mem), old(role), old(pt), root, a, v, n);
          return 0;
        }
        EntryFacts(f, PTE_R + PTE_U + xperm);
        assert Holds(mem, pt, Place(root, v + n), Filled(0), PTE_R + PTE_U + xperm + 1) by {
          MappedHolds(mem, pt, Place(root, v + n), f, Filled(0), PTE_R + PTE_U + xperm);
        }
        ZeroedMore(m1, p1, mem, pt, root, v, n, PTE_R + PTE_U + xperm + 1);
        UnmappedNext(old(pt), p1, root, v, n, Entry(f, PTE_R + PTE_U + xperm));
        BudgetStep(|old(flist)|, have, f1, h1, |flist|, Have(node, root), v, n, all, want, 1);
        n := n + 1;
        a := a + PGSIZE;
      }
      BudgetEnd(|old(flist)|, have, |flist|, Have(node, root), v, all, want, 1);
      r := newsz;
    }

    // -------------------------------------------------------------- freewalk

    /** freewalk: frees the page-table page t, at place `top` of its tree, and those below it. With no
        leaf left below, its panic is unreachable. The entry that points at t is left stale. */
    method Freewalk(ghost top: Key, t: int)
      requires Valid() && top in node && node[top] == t && Leafless(pt, top)
      modifies this`mem, this`head, this`role, this`flist, this`node
      ensures Frames(lo, hi, mem, role) && FreeList(mem, role, head, flist) && Nodes(role, node) && Leaves(role, pt)
      ensures Links(mem, node, top) && Refines(mem, node, pt)
      ensures node == Without(old(node), top) && Cleared(old(mem), old(role), mem, role, top)
      decreases top.level, 1
    {
      hide FreeList, Nodes, Links, Refines, Leaves, Pruned, Without, Cleared, Under, Entry, Leafless;
      NodePage(role, node, top);
      NodeLevels(role, node);
      ClearedRefl(mem, role, top);
      PrunedNone(node, top);
      for i := 0 to ENTRIES
        invariant Valid() && top in node && node[top] == t && t in role && role[t] == Node(top)
        invariant node == Pruned(old(node), top, i) && Cleared(old(mem), old(role), mem, role, top)
      {
        PrunedStep(old(node), top, i);
        EntryPoints(lo, hi, mem, role, node, pt, top, i);
        var w := mem[t][i];
        if Pointer(w) {
          var child := FrameOf(w);
          ghost var m1, r1 := mem, role;
          FreeChild(top, t, i, child);
          ClearedTrans(old(mem), old(role), m1, r1, mem, role, top);
        } else {
          assert !Present(w);  // no "freewalk: leaf"
          NoneBelow(role, node, Child(top, i));
        }
      }
      PrunedAll(old(node), top);
      OnlyTop(old(node), top);
      ghost var m2, r2 := mem, role;
      DropTop(top, t);
      ClearedDrop(m2, r2, top, t, mem[t], role[t]);
      ClearedTrans(old(mem), old(role), m2, r2, mem, role, top);
    }

    /** The recursive call of freewalk and the store that follows it. */
    method FreeChild(ghost top: Key, t: int, i: nat, child: int)
      requires Valid() && top in node && node[top] == t && Leafless(pt, top) && 0 < top.level <= 2 && i < ENTRIES
      requires Child(top, i) in node && node[Child(top, i)] == child
      modifies this`mem, this`head, this`role, this`flist, this`node
      ensures Valid() && node == Without(old(node), Child(top, i)) && Cleared(old(mem), old(role), mem, role, top)
      ensures top in node && node[top] == t && t in role && role[t] == Node(top)
      decreases top.level, 0
    {
      hide FreeList, Nodes, Links, Refines, Leaves, Cleared, Leafless;
      LeaflessChild(pt, top, i);
      NodePage(role, node, top);
      TopStays(node, top, i);
      Freewalk(Child(top, i), child);
      NodePage(role, node, top);
      ClearedUp(old(mem), old(role), old(node), mem, role, top, i);
      ClearLink(mem, role, node, pt, top, i);
      FreeListKept(mem, role, head, flist, t, mem[t][i := 0], role[t]);
      assert role[t := role[t]] == role;
      ClearedStore(old(mem), old(role), mem, role, top, t, mem[t][i := 0]);
      mem := mem[t := mem[t][i := 0]];
    }

    /** kfree of a page-table page with nothing below it. */
    method DropTop(ghost top: Key, t: int)
      requires Valid() && top in node && node[top] == t && Leafless(pt, top) && t in role && role[t] == Node(top)
      requires forall k {:trigger k in node} :: k in node && Under(k, top) ==> k == top
      modifies this`mem, this`head, this`role, this`flist, this`node
      ensures Frames(lo, hi, mem, role) && FreeList(mem, role, head, flist) && Nodes(role, node) && Leaves(role, pt)
      ensures Links(mem, node, top) && Refines(mem, node, pt) && node == old(node) - {top}
      ensures t in mem && mem == old(mem)[t := mem[t]] && role == old(role)[t := Free(|old(flist)|)]
    {
      hide FreeList, Nodes, Links, Refines, Leaves, Under;
      DropNode(mem, role, node, pt, top);
      LeavesKept(role, pt, t, Held);
      FreeListKept(mem, role, head, flist, t, mem[t], Held);
      assert mem[t := mem[t]] == mem;
      role, node := role[t := Held], node - {top};
      ghost var r1 := role;
      var ok := Kfree(t * PGSIZE);
      TreeKept(old(mem), r1, node, pt, top, t, mem[t]);
      NodesKept(r1, node, t, role[t]);
      LeavesKept(r1, pt, t, role[t]);
    }

    /** uvmfree: frees the pages below sz, which must be all there are, and the page table itself. */
    method Uvmfree(root: int, sz: nat)
      requires Valid() && RootKey(root) in node && RoundUp(sz) <= USERTOP
      requires forall p {:trigger p in pt} :: p in pt && p.root == root ==> p.vpn < RoundUp(sz)
      modifies this`mem, this`head, this`role, this`flist, this`node, this`pt
      ensures Valid() && RootKey(root) !in node && node == Without(old(node), RootKey(root))
      ensures pt == Unmapped(old(pt), root, 0, RoundUp(sz)) && Released(old(mem), old(role), mem, role, root)
    {
      hide FreeList, Nodes, Links, Refines, Leaves, Released, Unmapped, Cleared, Without, RoundUp, Leafless;
      ReleasedRefl(mem, role, root);
      UnmappedStep(pt, root, 0, 0);
      if sz > 0 {
        var ok := Uvmunmap(root, 0, RoundUp(sz), true);
      } else {
        assert RoundUp(sz) == 0 by { RoundUpMono(0, 0); }
      }
      AllGone(old(pt), root, RoundUp(sz));
      RootPage(role, node, root);
      ghost var m1, r1 := mem, role;
      Freewalk(RootKey(root), root);
      LinksWhole(mem, role, node, root);
      RootCut(old(node), root);
      ClearedReleased(m1, r1, mem, role, RootKey(root));
      ReleasedTrans(old(mem), old(role), m1, r1, mem, role, root);
    }

    /** uvmcreate: an empty page table; 0 if out of memory. */
    method Uvmcreate() returns (root: int)
      requires Valid()
      modifies this`mem, this`head, this`role, this`flist, this`node
      ensures Valid()
      ensures root == 0 ==> unchanged(this) && flist == []
      ensures root != 0 ==>
                RootKey(root) !in old(node) && node == old(node)[RootKey(root) := root] && |flist| == |old(flist)| - 1
      ensures root != 0 ==> Took(old(mem), old(role), mem, role, root)
    {
      hide FreeList, Nodes, Links, Refines, Leaves;
      root := TakePage(Filled(0));
      if root != 0 {
        var f := root;
        LeavesKept(role, pt, f, Node(RootKey(f)));
        AddRootNodes(role, node, f);
        AddRootLinks(mem, role, node, f);
        AddRootRefines(mem, role, node, pt, f);
        FreeListKept(mem, role, head, flist, f, Filled(0), Node(RootKey(f)));
        assert mem[f := Filled(0)] == mem;
        role, node := role[f := Node(RootKey(f))], node[RootKey(f) := f];
      }
    }

    /** vmfault, for a process of size sz: the page number, 0 if va is invalid or already mapped, or if fewer pages are
        free than it takes: one, and one for each node missing on the way to va. */
    method Vmfault(root: int, va: nat, sz: nat) returns (f: int)
      requires Valid() && RootKey(root) in node && sz <= USERTOP * PGSIZE
      modifies this`mem, this`head, this`role, this`flist, this`node, this`pt
      ensures Valid() && RootKey(root) in node && PagesKept(old(mem), old(pt), mem, pt)
      ensures Took(old(mem), old(role), mem, role, root)
      ensures f == 0 ==> pt == old(pt)
      ensures f == 0 <==> va >= sz || Place(root, va / PGSIZE) in old(pt)
                          || |old(flist)| < 1 + Missing(Have(old(node), root), va / PGSIZE)
      ensures f != 0 ==>
                va < sz && Place(root, va / PGSIZE) !in old(pt)
                && pt == old(pt)[Place(root, va / PGSIZE) := Entry(f, PTE_W + PTE_U + PTE_R)]
      ensures f != 0 ==> Holds(mem, pt, Place(root, va / PGSIZE), Filled(0), PTE_W + PTE_U + PTE_R + 1)
      ensures f != 0 ==> |flist| == |old(flist)| - 1 - Missing(Have(old(node), root), va / PGSIZE)
    {
      hide FreeList, Nodes, Links, Refines, Leaves, Took, PagesKept, Local, Entry, Holds;
      KeptStart(lo, hi, mem, role, pt, root);
      TookRefl(mem, role, root);
      if va >= sz {
        return 0;
      }
      var mapped := IsMapped(root, va / PGSIZE * PGSIZE);
      if mapped {
        return 0;
      }
      f := AllocPage(root, va / PGSIZE * PGSIZE, Filled(0), PTE_W + PTE_U + PTE_R);
      TookPages(lo, hi, old(mem), old(role), old(pt), mem, role, pt, root);
      if f != 0 {
        MappedHolds(mem, pt, Place(root, va / PGSIZE), f, Filled(0), PTE_W + PTE_U + PTE_R);
      }
    }

    /** ismapped. */
    method IsMapped(root: int, va: nat) returns (b: bool)
      requires Valid() && RootKey(root) in node && va < MAXPAGE * PGSIZE
      modifies this`mem, this`head, this`role, this`flist, this`node
      ensures unchanged(this) && (b <==> Place(root, va / PGSIZE) in pt)
    {
      hide FreeList, Nodes, Links, Refines, Leaves, Grew, DataKept;
      var t, i := Walk(root, va, false);
      if t == 0 {
        return false;
      }
      EntryAt(mem, role, node, pt, Place(root, va / PGSIZE));
      b := Present(mem[t][i]);
    }

    /** One trip of the loop in uvmcopy; -1 if out of memory. */
    method CopyPage(a: int, b: int, va: nat) returns (r: int, ghost w: int)
      requires Valid() && RootKey(a) in node && RootKey(b) in node && va % PGSIZE == 0 && va / PGSIZE < USERTOP
      requires Place(b, va / PGSIZE) !in pt
      modifies this`mem, this`head, this`role, this`flist, this`node, this`pt
      ensures Valid() && RootKey(a) in node && RootKey(b) in node && Took(old(mem), old(role), mem, role, b)
      ensures r == 0 ==> PageCopied(old(mem), old(pt), mem, pt, a, b, va / PGSIZE, w)
      ensures r != 0 ==> r == -1 && pt == old(pt)
      ensures var have, v, there := Have(old(node), b), va / PGSIZE, Place(a, va / PGSIZE) in old(pt);
              && (r != 0 <==> there && |old(flist)| < 1 + Missing(have, v))
              && (r == 0 ==> |flist| == |old(flist)| - (if there then 1 + Missing(have, v) else 0)
                             && Have(node, b) == if there then have + Way(v) else have)
      ensures forall p {:trigger p in old(pt)} :: p in old(pt) ==> p in pt && pt[p] == old(pt)[p]
    {
      hide FreeList, Nodes, Links, Refines, Leaves, Took, Grew, DataKept, Entry, Have, Missing, Way;
      TookRefl(mem, role, b);
      r, w := 0, 0;
      var t, i := Walk(a, va, false);
      if t == 0 {
        return;
      }
      ghost var p := Place(a, va / PGSIZE);
      EntryAt(mem, role, node, pt, p);
      var pte := mem[t][i];
      if !Present(pte) {
        return;
      }
      LeafPage(role, pt, p);
      var pa, flags := FrameOf(pte), FlagsOf(pte);
      var f := AllocPage(b, va, mem[pa], flags);
      KeyStays(lo, hi, old(mem), old(role), old(node), mem, role, node, b, RootKey(a));
      if f == 0 {
        return -1, 0;
      }
      EntryFacts(f, flags);
      w := Entry(f, flags);
    }

    /** uvmcopy: copies the pages of address space a below sz, with their flags, to pages of their own
        in address space b; all of them, or none if fewer pages are free than that takes. */
    method Uvmcopy(a: int, b: int, sz: nat) returns (r: int)
      requires Valid() && RootKey(a) in node && RootKey(b) in node && a != b && RoundUp(sz) <= USERTOP
      requires Unused(pt, b, 0, RoundUp(sz))
      modifies this`mem, this`head, this`role, this`flist, this`node, this`pt
      ensures Valid() && RootKey(a) in node && RootKey(b) in node && (r == 0 || r == -1)
      ensures PagesKept(old(mem), old(pt), mem, pt) && Local(old(mem), old(role), mem, role, b)
      ensures r == 0 ==> Copied(mem, pt, a, b, RoundUp(sz)) && Unmapped(pt, b, 0, RoundUp(sz)) == old(pt)
      ensures r == -1 ==> pt == old(pt)
      ensures var n := RoundUp(sz);
              var need := Need(Have(old(node), b), 0, n, MappedBy(old(pt), a, n), 1);
              (r == -1 <==> |old(flist)| < need) && (r == 0 ==> |flist| == |old(flist)| - need)
    {
      hide FreeList, Nodes, Links, Refines, Leaves, Took, PagesKept, Local, Unmapped, Copied, PageCopied, Budget, Need,
        Reach, Have, Missing, Way, MappedBy;
      ghost var all, have := RoundUp(sz), Have(node, b);
      ghost var want := MappedBy(pt, a, all);
      BudgetStart(|flist|, have, 0, all, want, 1);
      KeptStart(lo, hi, mem, role, pt, b);
      UnmappedStep(pt, b, 0, 0);
      CopiedNone(mem, pt, a, b);
      var va, n := 0, 0;
      while va < sz
        invariant Budget(|old(flist)|, have, |flist|, Have(node, b), 0, n, all, want, 1)
        invariant va == n * PGSIZE && 0 <= n <= RoundUp(sz) && Valid() && RootKey(a) in node && RootKey(b) in node
        invariant PagesKept(old(mem), old(pt), mem, pt) && Local(old(mem), old(role), mem, role, b)
        invariant Unmapped(pt, b, 0, n) == old(pt) && Copied(mem, pt, a, b, n)
        decreases RoundUp(sz) - n
      {
        ghost var m1, r1, p1, f1, h1 := mem, role, pt, |flist|, Have(node, b);
        NotYet(pt, old(pt), b, 0, n);
        SameMapped(old(pt), pt, a, b, all, n);
        ghost var w;
        r, w := CopyPage(a, b, va);
        TookPages(lo, hi, m1, r1, p1, mem, role, pt, b);
        TookLocal(m1, r1, mem, role, b);
        PagesKeptTrans(old(mem), old(pt), m1, p1, mem, pt);
        LocalTrans(old(mem), old(role), m1, r1, mem, role, b);
        if r != 0 {
          BudgetShort(|old(flist)|, have, f1, h1, 0, n, all, want, 1);
          CopyUndo(old(mem), old(role), old(pt), a, b, n);
          return -1;
        }
        CopiedNext(m1, p1, mem, pt, a, b, n, w);
        UncopiedNext(old(pt), m1, p1, mem, pt, a, b, n, w);
        BudgetStep(|old(flist)|, have, f1, h1, |flist|, Have(node, b), 0, n, all, want, 1);
        va, n := va + PGSIZE, n + 1;
      }
      BudgetEnd(|old(flist)|, have, |flist|, Have(node, b), 0, all, want, 1);
      r := 0;
    }

    /** The error exit of uvmcopy. */
    method CopyUndo(ghost mem0: Memory, ghost role0: map<int, Role>, ghost pt0: map<Place, int>, ghost a: int, b: int,
        n: nat)
      requires Valid() && RootKey(b) in node && RootKey(a) in node && n <= USERTOP
      requires PagesKept(mem0, pt0, mem, pt) && Local(mem0, role0, mem, role, b) && Unmapped(pt, b, 0, n) == pt0
      modifies this`mem, this`head, this`role, this`flist, this`node, this`pt
      ensures Valid() && RootKey(b) in node && RootKey(a) in node
      ensures pt == pt0 && PagesKept(mem0, pt0, mem, pt) && Local(mem0, role0, mem, role, b)
    {
      hide FreeList, Nodes, Links, Refines, Leaves, Released, Local, PagesKept;
      var ok := Uvmunmap(b, 0, n, true);
      ReleasedLocal(old(mem), old(role), mem, role, b);
      LocalTrans(mem0, role0, old(mem), old(role), mem, role, b);
      ReleasedPages(lo, hi, old(mem), old(role), old(pt), mem, role, pt, b);
      PagesBack(mem0, pt0, old(mem), old(pt), mem);
    }

    // ------------------------------------------------------- address spaces

    /** mappages for the trapframe or the trampoline. */
    method MapTop(root: int, vpn: nat, f: int, perm: nat) returns (ok: bool)
      requires Valid() && RootKey(root) in node && USERTOP <= vpn < MAXPAGE && 0 <= f && perm < 1024
               && Place(root, vpn) !in pt
      modifies this`mem, this`head, this`role, this`flist, this`node, this`pt
      ensures Valid() && RootKey(root) in node && Took(old(mem), old(role), mem, role, root)
      ensures pt == if ok then old(pt)[Place(root, vpn) := Entry(f, perm)] else old(pt)
      ensures var have := Have(old(node), root);
              && (ok <==> |old(flist)| >= Missing(have, vpn))
              && (ok ==> |flist| == |old(flist)| - Missing(have, vpn) && Have(node, root) == have + Way(vpn))
    {
      hide FreeList, Nodes, Links, Refines, Leaves, Took, Grew, DataKept, Entry, Need, Reach, Have, Range, Missing, Way;
      OneNeed(Have(node, root), vpn);
      var r;
      ghost var done;
      r, done := Mappages(root, vpn * PGSIZE, PGSIZE, f * PGSIZE, perm);
      GrewTook(old(mem), old(role), mem, role, root);
      GrewLeaves(old(role), role, old(pt), root);
      OnePage(old(pt), root, vpn, f, perm);
      MapTopLeaf(role, old(pt), Place(root, vpn), Entry(f, perm));
      ok := r == Done;
    }

    /** proc_freepagetable. */
    method ProcFreepagetable(root: int, sz: nat)
      requires Valid() && RootKey(root) in node && RoundUp(sz) <= USERTOP && Layout(pt, root, RoundUp(sz))
      modifies this`mem, this`head, this`role, this`flist, this`node, this`pt
      ensures Valid() && RootKey(root) !in node && pt == Except(old(pt), root)
      ensures Local(old(mem), old(role), mem, role, root)
    {
      hide FreeList, Nodes, Links, Refines, Leaves, Released, Local, Layout, Unmapped, Except, Without, RoundUp;
      AllUnmapped(pt, root, RoundUp(sz));
      var ok := Uvmunmap(root, (USERTOP + 1) * PGSIZE, 1, false);
      ghost var m1, r1 := mem, role;
      ok := Uvmunmap(root, USERTOP * PGSIZE, 1, false);
      ReleasedTrans(old(mem), old(role), m1, r1, mem, role, root);
      ghost var m2, r2 := mem, role;
      Uvmfree(root, sz);
      ReleasedTrans(old(mem), old(role), m2, r2, mem, role, root);
      ReleasedLocal(old(mem), old(role), mem, role, root);
    }

    /** proc_pagetable, for the trapframe tf; `trampoline` is the page of the trampoline code. On failure
        everything is as before. */
    method ProcPagetable(tf: int, trampoline: int) returns (root: int)
      requires Valid() && tf in role && role[tf] == Held && 0 <= trampoline
      modifies this`mem, this`head, this`role, this`flist, this`node, this`pt
      ensures Valid()
      ensures root == 0 ==>
                pt == old(pt) && node == old(node) && Restored(old(mem), old(role), mem, role)
      ensures root == 0 <==> |old(flist)| < 3
      ensures root != 0 ==> |flist| == |old(flist)| - 3 && Have(node, root) == TopNodes()
      ensures root != 0 ==>
                RootKey(root) !in old(node) && RootKey(root) in node && Took(old(mem), old(role), mem, role, root)
      ensures root != 0 ==>
                pt == old(pt)[Place(root, USERTOP + 1) := Entry(trampoline, PTE_R + PTE_X)][Place(root, USERTOP) :=
                  Entry(tf, PTE_R + PTE_W)]
      ensures root != 0 ==> Except(pt, root) == old(pt) && Layout(pt, root, 0)
    {
      hide FreeList, Nodes, Links, Refines, Leaves, Took, Local, Restored, Layout, Except, Entry, Have, Missing, Way,
          TopNodes;
      RestoredRefl(mem, role);
      root := Uvmcreate();
      if root == 0 {
        return;
      }
      ExceptNew(old(mem), old(role), old(node), old(pt), root);
      HaveRoot(old(role), old(node), node, root);
      ghost var m1, r1 := mem, role;
      var ok := MapTop(root, USERTOP + 1, trampoline, PTE_R + PTE_X);
      TookTrans(old(mem), old(role), m1, r1, mem, role, root);
      if !ok {
        TookLocal(old(mem), old(role), mem, role, root);
        Discard(old(mem), old(role), old(node), old(pt), root);
        return 0;
      }
      ExceptTop(old(pt), root, USERTOP + 1, Entry(trampoline, PTE_R + PTE_X));
      ghost var m2, r2, f2 := mem, role, |flist|;
      ok := MapTop(root, USERTOP, tf, PTE_R + PTE_W);
      TookTrans(old(mem), old(role), m2, r2, mem, role, root);
      LayoutTop(old(pt), root, 0, Entry(trampoline, PTE_R + PTE_X), Entry(tf, PTE_R + PTE_W));
      if !ok {
        // The second error exit is not taken: the trapframe needs no node that the trampoline did not.
        TopShared(f2);
        assert false;
      }
      TopShared(0);
      ExceptTop(old(pt)[Place(root, USERTOP + 1) := Entry(trampoline, PTE_R + PTE_X)], root, USERTOP,
          Entry(tf, PTE_R + PTE_W));
    }

    /** The second error exit of proc_pagetable, which would restore everything too; by TopShared it is not taken. */
    method DiscardTop(ghost mem0: Memory, ghost role0: map<int, Role>, ghost node0: map<Key, int>,
        ghost pt0: map<Place, int>, root: int, ghost w: int)
      requires Valid() && RootKey(root) in node && Local(mem0, role0, mem, role, root)
      requires Place(root, USERTOP + 1) !in pt0 && pt == pt0[Place(root, USERTOP + 1) := w]
      requires Frames(lo, hi, mem0, role0) && Nodes(role0, node0) && Refines(mem0, node0, pt0) && Leaves(role0, pt0)
               && RootKey(root) !in node0
      modifies this`mem, this`head, this`role, this`flist, this`node, this`pt
      ensures Valid() && pt == pt0 && node == node0 && Restored(mem0, role0, mem, role)
    {
      hide FreeList, Nodes, Links, Refines, Leaves, Released, Local, Restored, Unmapped;
      UnmappedStep(pt0, root, USERTOP + 1, 0);
      UnmappedNext(pt0, pt0, root, USERTOP + 1, 0, w);
      var ok := Uvmunmap(root, (USERTOP + 1) * PGSIZE, 1, false);
      ReleasedLocal(old(mem), old(role), mem, role, root);
      LocalTrans(mem0, role0, old(mem), old(role), mem, role, root);
      Discard(mem0, role0, node0, pt0, root);
    }

    /** The first error exit of proc_pagetable. */
    method Discard(ghost mem0: Memory, ghost role0: map<int, Role>, ghost node0: map<Key, int>,
        ghost pt0: map<Place, int>, root: int)
      requires Valid() && RootKey(root) in node && Local(mem0, role0, mem, role, root) && pt == pt0
      requires Frames(lo, hi, mem0, role0) && Nodes(role0, node0) && Refines(mem0, node0, pt0) && Leaves(role0, pt0)
               && RootKey(root) !in node0
      modifies this`mem, this`head, this`role, this`flist, this`node, this`pt
      ensures Valid() && pt == pt0 && node == node0 && Restored(mem0, role0, mem, role)
    {
      hide FreeList, Nodes, Links, Refines, Leaves, Released, Local, Restored, Unmapped, Layout, Except;
      NoTree(mem0, role0, node0, pt0, root);
      UnmappedStep(pt, root, 0, 0);
      assert RoundUp(0) == 0;
      Uvmfree(root, 0);
      ReleasedLocal(old(mem), old(role), mem, role, root);
      LocalTrans(mem0, role0, old(mem), old(role), mem, role, root);
      RestoredWhenGone(mem0, role0, node0, pt0, mem, role, node, pt, root);
      RestoredNodes(lo, hi, mem0, role0, node0, mem, role, node);
    }

    /** The memory side of kfork: a trapframe and an address space for a copy of the process with page
        table a and size sz, b == 0 on failure. It fails exactly if fewer pages are free than it takes: one for the
        trapframe, three for the page table, and those of uvmcopy. A failure at any allocation leaves the same pages
        free as before, and every other page with its role and contents. */
    method Fork(a: int, sz: nat, trampoline: int) returns (b: int, tf: int)
      requires Valid() && RootKey(a) in node && RoundUp(sz) <= USERTOP && 0 <= trampoline
      modifies this`mem, this`head, this`role, this`flist, this`node, this`pt
      ensures Valid()
      ensures b == 0 ==> pt == old(pt) && node == old(node) && Restored(old(mem), old(role), mem, role)
      ensures var n := RoundUp(sz);
              var need := 4 + Need(TopNodes(), 0, n, MappedBy(old(pt), a, n), 1);
              (b == 0 <==> |old(flist)| < need) && (b != 0 ==> |flist| == |old(flist)| - need)
      ensures b != 0 ==>
                RootKey(b) !in old(node) && RootKey(a) in node && RootKey(b) in node && tf in role && role[tf] == Held
      ensures b != 0 ==> Copied(mem, pt, a, b, RoundUp(sz)) && Layout(pt, b, RoundUp(sz)) && Except(pt, b) == old(pt)
      ensures b != 0 ==> PagesKept(old(mem), old(pt), mem, pt)
      ensures b != 0 ==> tf in old(role) && old(role)[tf].Free?
                         && Local(old(mem)[tf := Filled(JUNK_TAKEN)], old(role)[tf := Held], mem, role, b)
    {
      hide FreeList, Nodes, Links, Refines, Leaves, Took, Local, Restored, Layout, Except, Entry, PagesKept, Copied,
          Unmapped, RoundUp, Have, Need, MappedBy, TopNodes;
      RestoredRefl(mem, role);
      tf := Kalloc();
      if tf == 0 {
        return 0, 0;
      }
      LeavesKept(old(role), pt, tf, Held);
      ghost var m1, r1 := mem, role;
      b := ProcPagetable(tf, trampoline);
      if b == 0 {
        ghost var m2, r2 := mem, role;
        HeldAround(old(mem), old(role), m1, r1, m2, r2, tf, m1[tf], 0);
        FreeHeld(tf);
        HeldAround(old(mem), old(role), m1, r1, m2, r2, tf, mem[tf], role[tf].pos);
        return;
      }
      TookLocal(m1, r1, mem, role, b);
      KeyStays(lo, hi, m1, r1, old(node), mem, role, node, b, RootKey(a));
      PagesFree(lo, hi, old(mem), old(role), old(pt), tf, m1[tf]);
      ExceptWithin(pt, b);
      TookPages(lo, hi, m1, r1, old(pt), mem, role, pt, b);
      PagesKeptTrans(old(mem), old(pt), m1, old(pt), mem, pt);
      LayoutUnused(pt, b, RoundUp(sz));
      ghost var m2, r2, p2 := mem, role, pt;
      SameMappedBy(old(pt), pt, a, RoundUp(sz));
      var r := Uvmcopy(a, b, sz);
      LocalTrans(m1, r1, m2, r2, mem, role, b);
      if r != 0 {
        Freeproc(old(mem), old(role), old(node), old(pt), m1, r1, b, tf);
        b := 0;
      } else {
        PagesKeptTrans(old(mem), old(pt), m2, p2, mem, pt);
        ExceptCopied(pt, p2, b, RoundUp(sz));
        LocalHeld(old(mem), old(role), m1, r1, mem, role, b, tf, m1[tf], m1[tf], Held);
      }
    }

    /** freeproc, on a process that has a trapframe and an address space without user memory, whose
        trapframe was allocated in the state named 0 and left it in the state named 1. */
    method Freeproc(ghost mem0: Memory, ghost role0: map<int, Role>, ghost node0: map<Key, int>,
        ghost pt0: map<Place, int>,
                    ghost mem1: Memory, ghost role1: map<int, Role>, root: int, tf: int)
      requires Valid() && RootKey(root) in node && Local(mem1, role1, mem, role, root) && Except(pt, root) == pt0
               && Layout(pt, root, 0)
      requires tf in role0 && tf in mem0 && tf in mem1 && role0[tf].Free? && role1 == role0[tf := Held]
               && mem1 == mem0[tf := mem1[tf]]
      requires Frames(lo, hi, mem0, role0) && Nodes(role0, node0) && Refines(mem0, node0, pt0) && Leaves(role0, pt0)
               && RootKey(root) !in node0
      modifies this`mem, this`head, this`role, this`flist, this`node, this`pt
      ensures Valid() && pt == pt0 && node == node0 && Restored(mem0, role0, mem, role)
    {
      hide FreeList, Nodes, Links, Refines, Leaves, Local, Restored, Layout, Except;
      assert RoundUp(0) == 0;
      LocalHeld(mem0, role0, mem1, role1, mem, role, root, tf, mem1[tf], mem1[tf], Held);
      FreeHeld(tf);
      LocalHeld(mem0, role0, mem1, role1, old(mem), old(role), root, tf, mem1[tf], mem[tf], role[tf]);
      ghost var m4, r4 := mem, role;
      ProcFreepagetable(root, 0);
      LocalTrans(mem0, role0, m4, r4, mem, role, root);
      RestoredWhenGone(mem0, role0, node0, pt0, mem, role, node, pt, root);
      RestoredNodes(lo, hi, mem0, role0, node0, mem, role, node);
    }
  }

  /** A page taken before and given back after a stretch that leaves everything as it was. */
  lemma HeldAround(mem0: Memory, role0: map<int, Role>, mem1: Memory, role1: map<int, Role>, mem2: Memory,
      role2: map<int, Role>, f: int, page: Page, k: nat)
    requires f in role0 && f in mem0 && f in mem1 && role0[f].Free? && role1 == role0[f := Held]
             && mem1 == mem0[f := mem1[f]]
    requires Restored(mem1, role1, mem2, role2)
    ensures f in role2 && role2[f] == Held
    ensures Restored(mem0, role0, mem2[f := page], role2[f := Free(k)])
  {
    assert role2[f] == role1[f];
    var mem3, role3 := mem2[f := page], role2[f := Free(k)];
    forall g {:trigger role3[g]} {:trigger mem3[g]} | g in role0 && g in mem0
      ensures if role0[g].Free? then role3[g].Free? else role3[g] == role0[g] && mem3[g] == mem0[g]
    {
      var a, b := role2[g], mem2[g];
    }
  }

  lemma LocalHeld(mem0: Memory, role0: map<int, Role>, mem1: Memory, role1: map<int, Role>, mem2: Memory,
      role2: map<int, Role>,
                  root: int, f: int, page1: Page, page: Page, r: Role)
    requires f in role0 && f in mem0 && role0[f].Free? && role1 == role0[f := Held] && mem1 == mem0[f := page1]
    requires Local(mem1, role1, mem2, role2, root)
    ensures f in role2 && f in mem2 && role2[f] == Held
    ensures Mine(r, root) ==> Local(mem0, role0, mem2[f := page], role2[f := r], root)
  {
    var mem3, role3 := mem2[f := page], role2[f := r];
    assert role2[f] == role1[f];
    if Mine(r, root) {
      forall g {:trigger role3[g]} {:trigger mem3[g]} | g in role0 && g in mem0
        ensures (role3[g] == role0[g] || (Mine(role0[g], root) && Mine(role3[g], root)))
                && (!Mine(role0[g], root) ==> mem3[g] == mem0[g])
      {
        var a, b := role2[g], mem2[g];
      }
    }
  }

  lemma PagesFree(lo: int, hi: int, mem: Memory, role: map<int, Role>, pt: map<Place, int>, f: int, page: Page)
    requires Frames(lo, hi, mem, role) && Leaves(role, pt) && f in role && role[f].Free?
    ensures PagesKept(mem, pt, mem[f := page], pt)
  {
    forall p {:trigger p in pt} | p in pt && p.vpn < USERTOP
      ensures FrameOf(pt[p]) in mem && mem[f := page][FrameOf(pt[p])] == mem[FrameOf(pt[p])]
    {
      assert role[FrameOf(pt[p])] == Leaf(p);
    }
  }

  lemma ExceptWithin(pt: map<Place, int>, root: int)
    ensures forall p {:trigger p in Except(pt, root)} ::
              p in Except(pt, root) ==> p in pt && pt[p] == Except(pt, root)[p]
  {
  }

  lemma LayoutUnused(pt: map<Place, int>, root: int, n: nat)
    requires Layout(pt, root, 0) && n <= USERTOP
    ensures Unused(pt, root, 0, n)
  {
  }

  lemma ExceptCopied(pt: map<Place, int>, was: map<Place, int>, root: int, n: nat)
    requires Unmapped(pt, root, 0, n) == was && Layout(was, root, 0)
    ensures Except(pt, root) == Except(was, root) && Layout(pt, root, n)
  {
    var a, b := Except(pt, root), Except(was, root);
    forall p ensures p in a <==> p in b {
      assert p in was <==> p in Unmapped(pt, root, 0, n);
    }
    forall p | p in a ensures a[p] == b[p] {
      assert was[p] == Unmapped(pt, root, 0, n)[p];
    }
    assert a.Keys == b.Keys;
    forall p {:trigger p in pt} | p in pt && p.root == root
      ensures p.vpn < n || p.vpn == USERTOP || p.vpn == USERTOP + 1 {
      assert p.vpn >= n ==> p in Unmapped(pt, root, 0, n);
    }
  }

  lemma RestoredRefl(mem: Memory, role: map<int, Role>)
    ensures Restored(mem, role, mem, role)
  {
  }

  /** Copying to b changes nothing about which pages a maps. */
  lemma SameMapped(pt0: map<Place, int>, pt: map<Place, int>, a: int, b: int, all: nat, n: nat)
    requires Unmapped(pt, b, 0, n) == pt0 && a != b && n < all
    ensures n in MappedBy(pt0, a, all) <==> Place(a, n) in pt
  {
    var p := Place(a, n);
    assert p in pt0 <==> p in Unmapped(pt, b, 0, n);
  }

  lemma CopiedNone(mem: Memory, pt: map<Place, int>, a: int, b: int)
    ensures Copied(mem, pt, a, b, 0)
  {
  }

  lemma LeafPage(role: map<int, Role>, pt: map<Place, int>, p: Place)
    requires Leaves(role, pt) && p in pt && p.vpn < USERTOP
    ensures FrameOf(pt[p]) in role && role[FrameOf(pt[p])] == Leaf(p)
  {
  }

  lemma KeyStays(lo: int, hi: int, mem0: Memory, role0: map<int, Role>, node0: map<Key, int>, mem1: Memory,
      role1: map<int, Role>, node1: map<Key, int>, root: int, k: Key)
    requires Took(mem0, role0, mem1, role1, root) && Nodes(role0, node0) && Nodes(role1, node1) && k in node0
             && Frames(lo, hi, mem0, role0)
    ensures k in node1 && node1[k] == node0[k]
  {
    var f := node0[k];
    assert f in mem0 && role0[f] == Node(k);
    assert role1[f] == Node(k);
  }

  /** Nothing above a root refers to it. */
  lemma LinksWhole(mem: Memory, role: map<int, Role>, node: map<Key, int>, root: int)
    requires Nodes(role, node) && Links(mem, node, RootKey(root))
    ensures Links(mem, node, NOWHERE)
  {
    NodeLevels(role, node);
  }

  lemma RootCut(node: map<Key, int>, root: int)
    ensures RootKey(root) !in Without(node, RootKey(root))
  {
  }

  lemma AllGone(pt: map<Place, int>, root: int, n: nat)
    requires forall p {:trigger p in pt} :: p in pt && p.root == root ==> p.vpn < n
    ensures Leafless(Unmapped(pt, root, 0, n), RootKey(root))
  {
  }

  ghost predicate Leafless(pt: map<Place, int>, top: Key) {
    forall p {:trigger p in pt} :: p in pt ==> !Under(LeafKey(p), top)
  }

  lemma LeaflessChild(pt: map<Place, int>, top: Key, i: nat)
    requires Leafless(pt, top) && 0 < top.level <= 2 && i < ENTRIES
    ensures Leafless(pt, Child(top, i))
  {
    forall p {:trigger p in pt} | p in pt ensures !Under(LeafKey(p), Child(top, i)) {
      UnderChild(LeafKey(p), top, i);
    }
  }

  lemma OnlyTop(node: map<Key, int>, top: Key)
    requires 0 <= top.level <= 2
    ensures forall k {:trigger k in Pruned(node, top, ENTRIES)} ::
              k in Pruned(node, top, ENTRIES) && Under(k, top) ==> k == top
  {
  }

  lemma TopStays(node: map<Key, int>, top: Key, i: nat)
    requires top in node
    ensures top in Without(node, Child(top, i)) && Without(node, Child(top, i))[top] == node[top]
  {
  }

  lemma ClearedDrop(mem: Memory, role: map<int, Role>, top: Key, t: int, page: Page, r: Role)
    requires t in role && t in mem && role[t] == Node(top) && r.Free?
    ensures Cleared(mem, role, mem[t := page], role[t := r], top)
  {
  }

  lemma ClearedStore(mem0: Memory, role0: map<int, Role>, mem1: Memory, role1: map<int, Role>, top: Key, t: int,
      page: Page)
    requires Cleared(mem0, role0, mem1, role1, top) && t in role1 && t in mem1 && role1[t] == Node(top)
    ensures Cleared(mem0, role0, mem1[t := page], role1, top)
  {
    var mem2 := mem1[t := page];
    forall f {:trigger role1[f]} {:trigger mem2[f]} | f in role0 && f in mem0
      ensures role1[f] == role0[f] || (role0[f].Node? && Under(role0[f].key, top) && role1[f].Free?)
      ensures !(role0[f].Node? && Under(role0[f].key, top)) ==> mem2[f] == mem0[f]
    {
      var b := mem1[f];
    }
  }

  lemma NodeLevels(role: map<int, Role>, node: map<Key, int>)
    requires Nodes(role, node)
    ensures forall k :: k in node ==> 0 <= k.level <= 2
  {
    forall k | k in node ensures 0 <= k.level <= 2 {
      var f := node[k];
    }
  }

  lemma EntryPoints(lo: int, hi: int, mem: Memory, role: map<int, Role>, node: map<Key, int>, pt: map<Place, int>,
      top: Key, i: nat)
    requires Frames(lo, hi, mem, role) && Nodes(role, node) && Links(mem, node, NOWHERE) && Refines(mem, node, pt)
             && Leafless(pt, top) && top in node && i < ENTRIES
    ensures var w := Word(mem, node[top], i);
            && (Present(w) <==> Pointer(w))
            && (Pointer(w) ==> 0 < top.level && Child(top, i) in node && node[Child(top, i)] == FrameOf(w))
            && (!Present(w) ==> Child(top, i) !in node)
  {
    var f := node[top];
    NoLeafEntry(mem, node, pt, top, i);
    var c := Child(top, i);
    if c in node {
      var g := node[c];
      EntryFacts(g, 0);
    }
  }

  /** PGROUNDUP(sz) / PGSIZE. */
  function RoundUp(sz: nat): (n: nat)
    ensures n * PGSIZE - PGSIZE < sz <= n * PGSIZE
  {
    (sz + PGSIZE - 1) / PGSIZE
  }

  lemma RoundUpMono(a: nat, b: nat)
    requires a <= b
    ensures RoundUp(a) <= RoundUp(b)
  {
  }

  lemma PagesBack(mem0: Memory, pt0: map<Place, int>, mem1: Memory, pt1: map<Place, int>, mem2: Memory)
    requires PagesKept(mem0, pt0, mem1, pt1) && PagesKept(mem1, pt0, mem2, pt0)
    ensures PagesKept(mem0, pt0, mem2, pt0)
  {
    forall p {:trigger p in pt0} | p in pt0 && p.vpn < USERTOP
      ensures FrameOf(pt0[p]) in mem0 && FrameOf(pt0[p]) in mem2 && mem2[FrameOf(pt0[p])] == mem0[FrameOf(pt0[p])]
    {
      assert p in pt1 && pt1[p] == pt0[p];
    }
  }

  lemma KeptStart(lo: int, hi: int, mem: Memory, role: map<int, Role>, pt: map<Place, int>, root: int)
    requires Frames(lo, hi, mem, role) && Leaves(role, pt)
    ensures PagesKept(mem, pt, mem, pt) && Local(mem, role, mem, role, root)
  {
  }

  lemma ZeroedNone(mem: Memory, pt: map<Place, int>, root: int, v: nat, flags: int)
    ensures Zeroed(mem, pt, root, v, 0, flags)
  {
  }

  lemma NotYet(pt: map<Place, int>, pt0: map<Place, int>, root: int, v: nat, n: nat)
    requires Unmapped(pt, root, v, n) == pt0 && Place(root, v + n) !in pt0
    ensures Place(root, v + n) !in pt
  {
    assert !InRange(Place(root, v + n), root, v, n);
    assert Place(root, v + n) !in Unmapped(pt, root, v, n);
  }

  lemma MappedHolds(mem: Memory, pt: map<Place, int>, p: Place, f: int, page: Page, perm: nat)
    requires p in pt && pt[p] == Entry(f, perm) && 0 <= f && f in mem && mem[f] == page && perm < 1024
    ensures Holds(mem, pt, p, page, if perm % 2 == 1 then perm else perm + 1)
  {
    EntryFacts(f, perm);
  }

  lemma HeldKept(mem0: Memory, role0: map<int, Role>, mem1: Memory, role1: map<int, Role>, root: int, f: int)
    requires Grew(role0, role1, root) && DataKept(mem0, mem1, role0, root) && f in role0 && f in mem0
             && role0[f] == Held
    ensures f in role1 && role1[f] == Held && f in mem1 && mem1[f] == mem0[f]
  {
  }

  lemma OnePage(pt: map<Place, int>, root: int, v: nat, f: int, perm: int)
    ensures Mapped(pt, root, v, 1, f, perm) == pt[Place(root, v) := Entry(f, perm)]
    ensures Mapped(pt, root, v, 0, f, perm) == pt
  {
  }

  /** From a free page f, through its time in the kernel's hands, to its new role. */
  lemma TookPage(mem0: Memory, role0: map<int, Role>, mem1: Memory, role1: map<int, Role>, mem2: Memory,
      role2: map<int, Role>,
                 root: int, f: int, page1: Page, page: Page, r: Role)
    requires f in role0 && f in mem0 && role0[f].Free? && role1 == role0[f := Held] && mem1 == mem0[f := page1]
    requires Grew(role1, role2, root) && DataKept(mem1, mem2, role1, root) && Mine(r, root)
    ensures Took(mem0, role0, mem2[f := page], role2[f := r], root)
  {
    var mem3, role3 := mem2[f := page], role2[f := r];
    forall g {:trigger role3[g]} {:trigger mem3[g]} | g in role0 && g in mem0
      ensures role3[g] == role0[g] || (role0[g].Free? && Mine(role3[g], root))
      ensures !role0[g].Free? && !(role0[g].Node? && role0[g].key.root == root) ==> mem3[g] == mem0[g]
    {
      var a, b := role2[g], mem2[g];
    }
  }

  lemma NodeReleased(mem: Memory, role: map<int, Role>, root: int, t: int, page: Page, k: Key)
    requires t in role && role[t] == Node(k) && k.root == root && t in mem
    ensures Released(mem, role, mem[t := page], role, root)
  {
  }

  lemma MappedNone(pt: map<Place, int>, root: int, v: nat, f: int, perm: int)
    ensures Mapped(pt, root, v, 0, f, perm) == pt
  {
  }

  lemma MappedMore(pt: map<Place, int>, root: int, v: nat, n: nat, f: int, perm: int)
    ensures Mapped(pt, root, v, n + 1, f, perm) == Mapped(pt, root, v, n, f,
              perm)[Place(root, v + n) := Entry(f + n, perm)]
  {
  }

  lemma EntryAt(mem: Memory, role: map<int, Role>, node: map<Key, int>, pt: map<Place, int>, p: Place)
    requires Nodes(role, node) && Refines(mem, node, pt) && LeafKey(p) in node
    ensures node[LeafKey(p)] in role && role[node[LeafKey(p)]] == Node(LeafKey(p))
    ensures Present(Word(mem, node[LeafKey(p)], p.vpn % ENTRIES)) <==> p in pt
    ensures p in pt ==> pt[p] == Word(mem, node[LeafKey(p)], p.vpn % ENTRIES)
  {
  }

  /** Writing a page-table page of `root` does not touch data. */
  lemma NodeWritten(mem0: Memory, role0: map<int, Role>, mem1: Memory, role1: map<int, Role>, root: int, t: int,
      page: Page, k: Key)
    requires DataKept(mem0, mem1, role0, root) && Grew(role0, role1, root)
    requires t in role1 && role1[t] == Node(k) && k.root == root && t in mem1
    ensures DataKept(mem0, mem1[t := page], role0, root)
  {
    var mem2 := mem1[t := page];
    forall f {:trigger mem2[f]} | f in role0 && f in mem0 && !role0[f].Free?
      && !(role0[f].Node? && role0[f].key.root == root)
      ensures mem2[f] == mem0[f]
    {
      assert mem1[f] == mem0[f];
      assert role1[f] == role0[f];
    }
  }

  lemma RootPage(role: map<int, Role>, node: map<Key, int>, root: int)
    requires Nodes(role, node) && RootKey(root) in node
    ensures node[RootKey(root)] == root && root in role
  {
  }

  lemma Unreached(mem: Memory, role: map<int, Role>, node: map<Key, int>, pt: map<Place, int>, p: Place, level: int)
    requires Nodes(role, node) && Refines(mem, node, pt) && 0 <= level <= 1 && PathKey(p, level) !in node
    ensures p !in pt
  {
    assert Parent(LeafKey(p)) == PathKey(p, 1);
  }

  lemma GrewRefl(mem: Memory, role: map<int, Role>, root: int)
    ensures Grew(role, role, root) && DataKept(mem, mem, role, root)
  {
  }

  lemma NodePage(role: map<int, Role>, node: map<Key, int>, k: Key)
    requires Nodes(role, node) && k in node
    ensures node[k] in role && role[node[k]] == Node(k) && 0 <= k.level <= 2
  {
  }

  /** What an entry of an upper level says. */
  lemma EntryOf(mem: Memory, role: map<int, Role>, node: map<Key, int>, k: Key, i: nat)
    requires Nodes(role, node) && Links(mem, node, NOWHERE) && k in node && 0 < k.level && i < ENTRIES
    ensures node[k] in role && role[node[k]] == Node(k)
    ensures Present(Word(mem, node[k], i)) <==> Child(k, i) in node
    ensures Child(k, i) in node ==> FrameOf(Word(mem, node[k], i)) == node[Child(k, i)] && node[Child(k, i)] in role
  {
    var c := Child(k, i);
    if c in node {
      assert node[c] in role;
    }
  }

  lemma Headed(mem: Memory, role: map<int, Role>, head: int, flist: seq<int>)
    requires FreeList(mem, role, head, flist)
    ensures head == 0 <==> flist == []
    ensures head != 0 ==> head in role && role[head].Free?
  {
  }
}
