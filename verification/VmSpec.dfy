/** Sv39 page tables and the physical page allocator, as mathematical relations between physical
    memory, the trees of page-table pages in it, and the partial map each tree stands for. */
module VmSpec {
  const PGSIZE := 4096
  const ENTRIES := 512               // PTEs in a page-table page
  const MAXPAGE := 0x400_0000        // MAXVA / PGSIZE
  const USERTOP := MAXPAGE - 2       // TRAPFRAME / PGSIZE

  const PTE_R := 2
  const PTE_W := 4
  const PTE_X := 8
  const PTE_U := 16

  /** A physical page, as its 512 64-bit words. Pages are named by physical address / PGSIZE. */
  type Page = seq<int>
  type Memory = map<int, Page>

  /** A place in a page-table tree: the pages below it cover the virtual pages whose number,
      divided by 512 to the power of level + 1, is `prefix`. */
  datatype Key = Key(root: int, level: int, prefix: nat)

  /** A virtual page of the page table with the given root. */
  datatype Place = Place(root: int, vpn: nat)

  /** What a physical page is used for. Free pages are numbered from the bottom of the free list. */
  datatype Role = Free(pos: nat) | Node(key: Key) | Leaf(at: Place) | Held

  const NOWHERE := Key(0, -1, 0)

  // --------------------------------------------------------------- entries

  predicate Present(w: int) { w % 2 == 1 }
  function FrameOf(w: int): int { w / 1024 }
  function FlagsOf(w: int): int { w % 1024 }

  /** PA2PTE(pa) | flags | PTE_V. */
  function Entry(f: int, flags: int): int {
    f * 1024 + if flags % 2 == 1 then flags else flags + 1
  }

  predicate Pointer(w: int) {
    Present(w) && (w / 2) % 8 == 0
  }

  lemma EntryParts(f: int, g: int)
    requires 0 <= f && 0 <= g < 1024
    ensures (f * 1024 + g) / 1024 == f && (f * 1024 + g) % 1024 == g
  {
  }

  lemma EntryParity(f: int, g: int)
    ensures (f * 1024 + g) % 2 == g % 2 && (f * 1024 + 1) / 2 == f * 512 && (f * 512) % 8 == 0
  {
    assert f * 1024 + g == 2 * (f * 512) + g;
    assert f * 512 == 8 * (f * 64);
  }

  lemma EntryFacts(f: int, flags: int)
    requires 0 <= f && 0 <= flags < 1024
    ensures Present(Entry(f, flags)) && FrameOf(Entry(f, flags)) == f && Entry(f, 0) == f * 1024 + 1
            && Pointer(Entry(f, 0))
    ensures FlagsOf(Entry(f, flags)) == if flags % 2 == 1 then flags else flags + 1
  {
    var g := if flags % 2 == 1 then flags else flags + 1;
    EntryParts(f, g);
    EntryParity(f, g);
    EntryParity(f, 1);
  }

  /** PX(level, va): the index into the page-table page of that level. */
  function PX(level: int, va: nat): (i: nat)
    ensures i < ENTRIES
  {
    if level == 2 then (va / 0x4000_0000) % 512
    else if level == 1 then (va / 0x20_0000) % 512
    else (va / 0x1000) % 512
  }

  // ----------------------------------------------------------------- trees

  function Parent(k: Key): Key { Key(k.root, k.level + 1, k.prefix / ENTRIES) }
  function Child(k: Key, i: nat): Key { Key(k.root, k.level - 1, k.prefix * ENTRIES + i) }
  function RootKey(root: int): Key { Key(root, 2, 0) }
  function LeafKey(p: Place): Key { Key(p.root, 0, p.vpn / ENTRIES) }

  lemma ChildOf(k: Key, i: nat)
    requires i < ENTRIES
    ensures Parent(Child(k, i)) == k && Child(k, i).prefix % ENTRIES == i
  {
  }

  lemma ChildInj(k: Key, i: nat, k': Key, i': nat)
    requires i < ENTRIES && i' < ENTRIES && Child(k, i) == Child(k', i')
    ensures k == k' && i == i'
  {
    ChildOf(k, i);
    ChildOf(k', i');
  }

  /** The node of the given level on the way to virtual page `vpn`. */
  function PathKey(p: Place, level: int): (k: Key)
    ensures k.root == p.root && k.level == level
  {
    Key(p.root, level, if level == 2 then 0 else if level == 1 then p.vpn / 0x4_0000 else p.vpn / 512)
  }

  lemma PathStep(root: int, va: nat)
    requires va < MAXPAGE * PGSIZE
    ensures var p := Place(root, va / PGSIZE);
            && PathKey(p, 2) == RootKey(root) && PathKey(p, 0) == LeafKey(p) && PX(0, va) == p.vpn % ENTRIES
            && forall l {:trigger PX(l, va)} :: 1 <= l <= 2 ==> Child(PathKey(p, l), PX(l, va)) == PathKey(p, l - 1)
  {
  }

  function Word(mem: Memory, f: int, i: nat): int {
    if f in mem && i < |mem[f]| then mem[f][i] else 0
  }

  /** Every page has exactly one role. */
  ghost predicate Frames(lo: int, hi: int, mem: Memory, role: map<int, Role>) {
    && 0 < lo <= hi
    && (forall f :: f in mem <==> lo <= f < hi)
    && (forall f {:trigger f in role} :: f in role <==> lo <= f < hi)
    && (forall f :: f in mem ==> |mem[f]| == ENTRIES)
  }

  /** The pages with role Free are chained through their first words. */
  ghost predicate FreeList(mem: Memory, role: map<int, Role>, head: int, flist: seq<int>) {
    && head == (if |flist| == 0 then 0 else flist[|flist| - 1])
    && (forall k {:trigger flist[k]} :: 0 <= k < |flist| ==>
          flist[k] in role && role[flist[k]] == Free(k) && flist[k] != 0)
    && (forall k {:trigger Word(mem, flist[k], 0)} :: 0 <= k < |flist| ==>
          Word(mem, flist[k], 0) == if k == 0 then 0 else flist[k - 1])
    && (forall f {:trigger role[f]} :: f in role && role[f].Free? ==> role[f].pos < |flist| && flist[role[f].pos] == f)
  }

  /** `node` lists the page-table pages; every one but a root has its parent. */
  ghost predicate Nodes(role: map<int, Role>, node: map<Key, int>) {
    && (forall k {:trigger node[k]} :: k in node ==>
          && node[k] in role && role[node[k]] == Node(k) && 0 <= k.level <= 2
          && (k.level == 2 ==> k.prefix == 0 && node[k] == k.root))
    && (forall k {:trigger Parent(k)} :: k in node && k.level < 2 ==> Parent(k) in node)
    && (forall f {:trigger role[f]} :: f in role && role[f].Node? ==> role[f].key in node && node[role[f].key] == f)
  }

  /** The entries of the upper levels point at exactly the nodes below, except that the one for `ex`
      is unconstrained. */
  ghost predicate Links(mem: Memory, node: map<Key, int>, ex: Key) {
    forall k, i: nat {:trigger Child(k, i)} :: k in node && k.level > 0 && i < ENTRIES && Child(k, i) != ex ==>
      if Child(k, i) in node then Word(mem, node[k], i) == Entry(node[Child(k, i)], 0)
          else !Present(Word(mem, node[k], i))
  }

  /** `pt` is the partial map that the trees implement. */
  ghost predicate Refines(mem: Memory, node: map<Key, int>, pt: map<Place, int>) {
    && (forall p {:trigger LeafKey(p)} ::
         LeafKey(p) in node && Present(Word(mem, node[LeafKey(p)], p.vpn % ENTRIES)) ==> p in pt)
    && (forall p {:trigger pt[p]} :: p in pt ==>
          LeafKey(p) in node && Present(pt[p]) && pt[p] == Word(mem, node[LeafKey(p)], p.vpn % ENTRIES))
  }

  /** Every mapped user page has a page of its own. */
  ghost predicate Leaves(role: map<int, Role>, pt: map<Place, int>) {
    && (forall p {:trigger pt[p]} ::
         p in pt && p.vpn < USERTOP ==> FrameOf(pt[p]) in role && role[FrameOf(pt[p])] == Leaf(p))
    && (forall f {:trigger role[f]} :: f in role && role[f].Leaf? ==>
          role[f].at in pt && FrameOf(pt[role[f].at]) == f && role[f].at.vpn < USERTOP)
  }

  // ----------------------------------------------- changes that keep the parts

  lemma Pop(mem: Memory, role: map<int, Role>, head: int, flist: seq<int>, r: Role)
    requires FreeList(mem, role, head, flist) && 0 < |flist| && !r.Free?
    ensures head in role && role[head].Free? && head != 0
    ensures FreeList(mem, role[head := r], Word(mem, head, 0), flist[..|flist| - 1])
  {
  }

  lemma Push(mem: Memory, role: map<int, Role>, head: int, flist: seq<int>, f: int, page: Page)
    requires FreeList(mem, role, head, flist) && f in role && !role[f].Free? && f != 0 && |page| == ENTRIES
             && page[0] == head
    ensures FreeList(mem[f := page], role[f := Free(|flist|)], f, flist + [f])
  {
    var mem', role', flist' := mem[f := page], role[f := Free(|flist|)], flist + [f];
    forall k {:trigger Word(mem', flist'[k], 0)} | 0 <= k < |flist'|
      ensures Word(mem', flist'[k], 0) == if k == 0 then 0 else flist'[k - 1]
    {
      if k < |flist| {
        assert role[flist[k]] == Free(k);
        assert Word(mem, flist[k], 0) == Word(mem', flist'[k], 0);
      }
    }
  }

  lemma FreeListKept(mem: Memory, role: map<int, Role>, head: int, flist: seq<int>, f: int, page: Page, r: Role)
    requires FreeList(mem, role, head, flist) && f in role && !role[f].Free? && !r.Free?
    ensures FreeList(mem[f := page], role[f := r], head, flist)
  {
    var mem' := mem[f := page];
    forall k {:trigger Word(mem', flist[k], 0)} | 0 <= k < |flist|
      ensures Word(mem', flist[k], 0) == if k == 0 then 0 else flist[k - 1]
    {
      assert role[flist[k]] == Free(k);
      assert Word(mem, flist[k], 0) == Word(mem', flist[k], 0);
    }
  }

  lemma NodesKept(role: map<int, Role>, node: map<Key, int>, f: int, r: Role)
    requires Nodes(role, node) && f in role && !role[f].Node? && !r.Node?
    ensures Nodes(role[f := r], node)
  {
  }

  /** What happens to pages that are not page-table pages does not matter to the trees. */
  lemma TreeKept(mem: Memory, role: map<int, Role>, node: map<Key, int>, pt: map<Place, int>, ex: Key, f: int,
      page: Page)
    requires Nodes(role, node) && Links(mem, node, ex) && Refines(mem, node, pt) && f in role && !role[f].Node?
    ensures Links(mem[f := page], node, ex) && Refines(mem[f := page], node, pt)
  {
    forall k, i: nat {:trigger Child(k, i)} | k in node
      ensures Word(mem[f := page], node[k], i) == Word(mem, node[k], i) {
      assert node[k] != f;
    }
    forall p {:trigger LeafKey(p)} | LeafKey(p) in node
      ensures Word(mem[f := page], node[LeafKey(p)], p.vpn % ENTRIES) == Word(mem, node[LeafKey(p)], p.vpn % ENTRIES)
    {
      assert node[LeafKey(p)] != f;
    }
  }

  lemma LeavesKept(role: map<int, Role>, pt: map<Place, int>, f: int, r: Role)
    requires Leaves(role, pt) && f in role && !role[f].Leaf? && !r.Leaf?
    ensures Leaves(role[f := r], pt)
  {
  }

  function Filled(w: int): (p: Page)
    ensures |p| == ENTRIES && forall i :: 0 <= i < ENTRIES ==> p[i] == w
  {
    seq(ENTRIES, i => w)
  }

  lemma AddNodeNodes(role: map<int, Role>, node: map<Key, int>, k: Key, i: nat, f: int)
    requires Nodes(role, node) && f in role && !role[f].Node? && k in node && 0 < k.level && i < ENTRIES
             && Child(k, i) !in node
    ensures Nodes(role[f := Node(Child(k, i))], node[Child(k, i) := f])
  {
    ChildOf(k, i);
  }

  lemma AddNodeLinks(mem: Memory, role: map<int, Role>, node: map<Key, int>, k: Key, i: nat, f: int)
    requires Nodes(role, node) && Links(mem, node, NOWHERE)
    requires f in role && !role[f].Node? && f in mem && k in node && 0 < k.level && i < ENTRIES && Child(k, i) !in node
    requires node[k] in mem && |mem[node[k]]| == ENTRIES
    ensures node[k] != f
    ensures var t := mem[node[k]][i := Entry(f, 0)];
            Links(mem[f := Filled(0)][node[k] := t], node[Child(k, i) := f], NOWHERE)
  {
    hide Entry;
    var c, t := Child(k, i), mem[node[k]][i := Entry(f, 0)];
    var mem', node' := mem[f := Filled(0)][node[k] := t], node[c := f];
    ChildOf(k, i);
    forall k2, i2: nat {:trigger Child(k2, i2)} | k2 in node' && k2.level > 0 && i2 < ENTRIES
      ensures if Child(k2, i2) in node' then Word(mem', node'[k2], i2) == Entry(node'[Child(k2, i2)], 0)
                else !Present(Word(mem', node'[k2], i2))
    {
      ChildOf(k2, i2);
      if k2 == c {
        assert Child(k2, i2) !in node';
      } else if k2 == k && i2 == i {
      } else {
        if Child(k2, i2) == c {
          ChildInj(k2, i2, k, i);
        }
        assert Word(mem', node'[k2], i2) == Word(mem, node[k2], i2);
      }
    }
  }

  lemma AddNodeRefines(mem: Memory, role: map<int, Role>, node: map<Key, int>, pt: map<Place, int>, k: Key, i: nat,
      f: int)
    requires Nodes(role, node) && Refines(mem, node, pt)
    requires f in role && !role[f].Node? && f in mem && k in node && 0 < k.level && i < ENTRIES && Child(k, i) !in node
    requires node[k] in mem && |mem[node[k]]| == ENTRIES
    ensures var t := mem[node[k]][i := Entry(f, 0)];
            Refines(mem[f := Filled(0)][node[k] := t], node[Child(k, i) := f], pt)
  {
    hide Entry;
    var c, t := Child(k, i), mem[node[k]][i := Entry(f, 0)];
    var mem', node' := mem[f := Filled(0)][node[k] := t], node[c := f];
    forall p {:trigger LeafKey(p)} | LeafKey(p) in node
      ensures Word(mem', node'[LeafKey(p)], p.vpn % ENTRIES) == Word(mem, node[LeafKey(p)], p.vpn % ENTRIES)
    {
      assert node[LeafKey(p)] != f;
      assert node[LeafKey(p)] != node[k];
    }
  }

  /** Storing a leaf entry, or clearing one. */
  lemma StoreLeaf(mem: Memory, role: map<int, Role>, node: map<Key, int>, pt: map<Place, int>, p: Place, w: int)
    requires Nodes(role, node) && Links(mem, node, NOWHERE) && Refines(mem, node, pt) && LeafKey(p) in node
    requires var t := node[LeafKey(p)]; t in mem && |mem[t]| == ENTRIES
    ensures var t := node[LeafKey(p)];
            var mem' := mem[t := mem[t][p.vpn % ENTRIES := w]];
            Links(mem', node, NOWHERE) && Refines(mem', node, if Present(w) then pt[p := w] else pt - {p})
  {
    var t := node[LeafKey(p)];
    var mem' := mem[t := mem[t][p.vpn % ENTRIES := w]];
    forall k, i: nat {:trigger Child(k, i)} | k in node && k.level > 0
      ensures Word(mem', node[k], i) == Word(mem, node[k], i) {
      assert node[k] != t;
    }
    forall q {:trigger LeafKey(q)} | LeafKey(q) in node
      ensures Word(mem', node[LeafKey(q)], q.vpn % ENTRIES) == if q == p then w
                else Word(mem, node[LeafKey(q)], q.vpn % ENTRIES)
    {
      if LeafKey(q) != LeafKey(p) {
        assert node[LeafKey(q)] != t;
      } else if q.vpn % ENTRIES == p.vpn % ENTRIES {
        assert q == p;
      }
    }
  }

  lemma MapLeaf(role: map<int, Role>, pt: map<Place, int>, p: Place, w: int)
    requires Leaves(role, pt) && p !in pt && p.vpn < USERTOP && FrameOf(w) in role && role[FrameOf(w)] == Held
    ensures Leaves(role[FrameOf(w) := Leaf(p)], pt[p := w])
  {
  }

  lemma UnmapLeaf(role: map<int, Role>, pt: map<Place, int>, p: Place)
    requires Leaves(role, pt) && p in pt
    ensures p.vpn < USERTOP ==>
              FrameOf(pt[p]) in role && role[FrameOf(pt[p])] == Leaf(p)
              && Leaves(role[FrameOf(pt[p]) := Held], pt - {p})
    ensures p.vpn >= USERTOP ==> Leaves(role, pt - {p})
  {
  }

  // --------------------------------------------------------------- subtrees

  function Lift(prefix: nat, levels: int): nat {
    if levels == 0 then prefix else if levels == 1 then prefix / 512 else prefix / 0x4_0000
  }

  /** Node k is `top` or below it. */
  predicate Under(k: Key, top: Key) {
    k.root == top.root && k.level <= top.level && Lift(k.prefix, top.level - k.level) == top.prefix
  }

  /** The entry of `top` through which the path to k goes. */
  function Branch(k: Key, top: Key): nat {
    Lift(k.prefix, top.level - 1 - k.level) % ENTRIES
  }

  lemma UnderChild(k: Key, top: Key, i: nat)
    requires 0 <= k.level <= 2 && 0 < top.level <= 2 && i < ENTRIES
    ensures Under(k, Child(top, i)) <==> k.level < top.level && Under(k, top) && Branch(k, top) == i
  {
  }

  lemma UnderParent(k: Key, top: Key)
    requires 0 <= k.level <= 2 && 0 <= top.level <= 2 && k.level < 2
    ensures Under(Parent(k), top) ==> Under(k, top)
    ensures Under(k, top) && k != top ==> Under(Parent(k), top)
  {
  }

  predicate Cut(k: Key, top: Key, i: nat) {
    Under(k, top) && k != top && Branch(k, top) < i
  }

  /** The nodes that are left once the first i entries of `top` have been dealt with. */
  function Pruned(node: map<Key, int>, top: Key, i: nat): map<Key, int> {
    map k | k in node && !Cut(k, top, i) :: node[k]
  }

  function Without(node: map<Key, int>, top: Key): map<Key, int> {
    map k | k in node && !Under(k, top) :: node[k]
  }

  lemma PrunedNone(node: map<Key, int>, top: Key)
    ensures Pruned(node, top, 0) == node
  {
    forall k ensures k in Pruned(node, top, 0) <==> k in node {
    }
    assert Pruned(node, top, 0).Keys == node.Keys;
  }

  lemma PrunedStep(node: map<Key, int>, top: Key, i: nat)
    requires 0 <= top.level <= 2 && i < ENTRIES && forall k :: k in node ==> 0 <= k.level <= 2
    ensures Without(Pruned(node, top, i), Child(top, i)) == Pruned(node, top, i + 1)
  {
    var a, b := Without(Pruned(node, top, i), Child(top, i)), Pruned(node, top, i + 1);
    forall k ensures k in a <==> k in b {
      if k in node && top.level > 0 {
        UnderChild(k, top, i);
      }
    }
    assert a.Keys == b.Keys;
  }

  /** The nodes above a node are there too. */
  lemma {:induction false} Upward(role: map<int, Role>, node: map<Key, int>, k: Key, top: Key)
    requires Nodes(role, node) && k in node && Under(k, top) && 0 <= top.level <= 2
    ensures top in node
    decreases top.level - k.level
  {
    var f := node[k];
    if k != top {
      UnderParent(k, top);
      Upward(role, node, Parent(k), top);
    }
  }

  lemma NoneBelow(role: map<int, Role>, node: map<Key, int>, top: Key)
    requires Nodes(role, node) && top.level <= 2 && top !in node
    ensures Without(node, top) == node
  {
    forall k ensures k in Without(node, top) <==> k in node {
      if k in node && Under(k, top) {
        var f := node[k];
        Upward(role, node, k, top);
      }
    }
    assert Without(node, top).Keys == node.Keys;
  }

  lemma PrunedAll(node: map<Key, int>, top: Key)
    requires 0 <= top.level <= 2 && forall k :: k in node ==> 0 <= k.level <= 2
    ensures Pruned(node, top, ENTRIES) - {top} == Without(node, top)
  {
    var a, b := Pruned(node, top, ENTRIES) - {top}, Without(node, top);
    forall k ensures k in a <==> k in b {
    }
    assert a.Keys == b.Keys;
  }

  /** Once nothing is left below it, a node can be freed; the entry that points at it is then stale. */
  lemma DropNode(mem: Memory, role: map<int, Role>, node: map<Key, int>, pt: map<Place, int>, top: Key)
    requires Nodes(role, node) && Links(mem, node, NOWHERE) && Refines(mem, node, pt) && top in node
    requires forall k {:trigger k in node} :: k in node && Under(k, top) ==> k == top
    requires forall p {:trigger p in pt} :: p in pt ==> !Under(LeafKey(p), top)
    ensures Nodes(role[node[top] := Held], node - {top})
    ensures Links(mem, node - {top}, top) && Refines(mem, node - {top}, pt)
  {
    var node', role' := node - {top}, role[node[top] := Held];
    forall k {:trigger Parent(k)} | k in node' && k.level < 2 ensures Parent(k) in node' {
      assert Parent(k) in node;
      if Parent(k) == top {
        UnderParent(k, top);
      }
    }
    forall k, i: nat {:trigger Child(k, i)} | k in node' && k.level > 0 && i < ENTRIES && Child(k, i) != top
      ensures if Child(k, i) in node' then Word(mem, node'[k], i) == Entry(node'[Child(k, i)], 0)
                else !Present(Word(mem, node'[k], i))
    {
      assert node'[k] == node[k];
    }
  }

  /** Clearing the stale entry repairs the tree. */
  lemma ClearLink(mem: Memory, role: map<int, Role>, node: map<Key, int>, pt: map<Place, int>, k: Key, i: nat)
    requires Nodes(role, node) && Links(mem, node, Child(k, i)) && Refines(mem, node, pt) && Child(k, i) !in node
    requires k in node && 0 < k.level && i < ENTRIES && node[k] in mem && |mem[node[k]]| == ENTRIES
    ensures var mem' := mem[node[k] := mem[node[k]][i := 0]];
            Links(mem', node, NOWHERE) && Refines(mem', node, pt)
  {
    var mem' := mem[node[k] := mem[node[k]][i := 0]];
    forall k2, i2: nat {:trigger Child(k2, i2)} | k2 in node && k2.level > 0 && i2 < ENTRIES
      ensures if Child(k2, i2) in node then Word(mem', node[k2], i2) == Entry(node[Child(k2, i2)], 0)
                else !Present(Word(mem', node[k2], i2))
    {
      if k2 == k && i2 == i {
      } else {
        if Child(k2, i2) == Child(k, i) {
          ChildInj(k2, i2, k, i);
        }
        if k2 != k {
          assert node[k2] != node[k];
        }
        assert Word(mem', node[k2], i2) == Word(mem, node[k2], i2);
      }
    }
    forall p {:trigger LeafKey(p)} | LeafKey(p) in node
      ensures Word(mem', node[LeafKey(p)], p.vpn % ENTRIES) == Word(mem, node[LeafKey(p)], p.vpn % ENTRIES)
    {
      assert node[LeafKey(p)] != node[k];
    }
  }

  /** A page without leaves below holds no leaf entry. */
  lemma NoLeafEntry(mem: Memory, node: map<Key, int>, pt: map<Place, int>, top: Key, i: nat)
    requires Links(mem, node, NOWHERE) && Refines(mem, node, pt) && top in node && 0 <= top.level && i < ENTRIES
    requires forall p {:trigger p in pt} :: p in pt ==> !Under(LeafKey(p), top)
    ensures var w := Word(mem, node[top], i);
            Present(w) ==> top.level > 0 && Child(top, i) in node && w == Entry(node[Child(top, i)], 0)
  {
    if top.level == 0 {
      var p := Place(top.root, top.prefix * ENTRIES + i);
      assert LeafKey(p) == top && p.vpn % ENTRIES == i;
    } else {
      assert Child(top, i) != NOWHERE;
    }
  }

  // ------------------------------------------------------- what an operation touches

  /** The pages that the owner of the page table `root` may take from or give back to the free list. */
  predicate Mine(r: Role, root: int) {
    r.Free? || (r.Node? && r.key.root == root) || (r.Leaf? && r.at.root == root)
  }

  /** Only free pages and pages of the page table `root` changed, and nothing else was written. */
  ghost predicate Local(mem0: Memory, role0: map<int, Role>, mem1: Memory, role1: map<int, Role>, root: int) {
    && role1.Keys == role0.Keys && mem1.Keys == mem0.Keys
    && forall f {:trigger role1[f]} {:trigger mem1[f]} :: f in role0 && f in mem0 ==>
      && (role1[f] == role0[f] || (Mine(role0[f], root) && Mine(role1[f], root)))
      && (!Mine(role0[f], root) ==> mem1[f] == mem0[f])
  }

  lemma LocalTrans(mem0: Memory, role0: map<int, Role>, mem1: Memory, role1: map<int, Role>, mem2: Memory,
      role2: map<int, Role>, root: int)
    requires Local(mem0, role0, mem1, role1, root) && Local(mem1, role1, mem2, role2, root)
    ensures Local(mem0, role0, mem2, role2, root)
  {
    forall f {:trigger role2[f]} {:trigger mem2[f]} | f in role0 && f in mem0
      ensures (role2[f] == role0[f] || (Mine(role0[f], root) && Mine(role2[f], root)))
      ensures !Mine(role0[f], root) ==> mem2[f] == mem0[f]
    {
      var a, b := role1[f], mem1[f];
    }
  }

  /** Only free pages changed their role, to nodes of the page table `root`. */
  ghost predicate Grew(role0: map<int, Role>, role1: map<int, Role>, root: int) {
    && role1.Keys == role0.Keys
    && forall f {:trigger role1[f]} :: f in role0 ==>
         role1[f] == role0[f] || (role0[f].Free? && role1[f].Node? && role1[f].key.root == root)
  }

  /** No data page, no page held by the kernel and no other page table was written. */
  ghost predicate DataKept(mem0: Memory, mem1: Memory, role0: map<int, Role>, root: int) {
    && mem1.Keys == mem0.Keys
    && forall f {:trigger mem1[f]} ::
         f in role0 && f in mem0 && !role0[f].Free? && !(role0[f].Node? && role0[f].key.root == root) ==>
         mem1[f] == mem0[f]
  }

  lemma GrewTrans(role0: map<int, Role>, role1: map<int, Role>, role2: map<int, Role>, root: int)
    requires Grew(role0, role1, root) && Grew(role1, role2, root)
    ensures Grew(role0, role2, root)
  {
  }

  lemma DataKeptTrans(mem0: Memory, role0: map<int, Role>, mem1: Memory, role1: map<int, Role>, mem2: Memory, root: int)
    requires DataKept(mem0, mem1, role0, root) && DataKept(mem1, mem2, role1, root) && Grew(role0, role1, root)
    ensures DataKept(mem0, mem2, role0, root)
  {
    forall f {:trigger mem2[f]} | f in role0 && f in mem0 && !role0[f].Free?
      && !(role0[f].Node? && role0[f].key.root == root)
      ensures mem2[f] == mem0[f]
    {
      assert mem1[f] == mem0[f];
      assert role1[f] == role0[f];
    }
  }

  lemma GrewLeaves(role0: map<int, Role>, role1: map<int, Role>, pt: map<Place, int>, root: int)
    requires Grew(role0, role1, root) && Leaves(role0, pt)
    ensures Leaves(role1, pt)
  {
  }

  // ---------------------------------------------------------------- ranges

  /** n consecutive virtual pages from v on mapped to consecutive physical pages from f on. */
  function Mapped(pt: map<Place, int>, root: int, v: nat, n: nat, f: int, perm: int): map<Place, int> {
    if n == 0 then pt else Mapped(pt, root, v, n - 1, f, perm)[Place(root, v + n - 1) := Entry(f + n - 1, perm)]
  }

  predicate InRange(p: Place, root: int, v: nat, n: nat) {
    p.root == root && v <= p.vpn < v + n
  }

  /** Exactly the range is added, and no other page's translation changes. */
  lemma {:induction false} MappedAt(pt: map<Place, int>, root: int, v: nat, n: nat, f: int, perm: int, p: Place)
    ensures p in Mapped(pt, root, v, n, f, perm) <==> p in pt || InRange(p, root, v, n)
    ensures InRange(p, root, v, n) ==> Mapped(pt, root, v, n, f, perm)[p] == Entry(f + (p.vpn - v), perm)
    ensures !InRange(p, root, v, n) && p in pt ==> Mapped(pt, root, v, n, f, perm)[p] == pt[p]
  {
    if n > 0 {
      MappedAt(pt, root, v, n - 1, f, perm, p);
    }
  }

  function Unmapped(pt: map<Place, int>, root: int, v: nat, n: nat): map<Place, int> {
    map p | p in pt && !InRange(p, root, v, n) :: pt[p]
  }

  ghost predicate Unused(pt: map<Place, int>, root: int, v: nat, n: nat) {
    forall vpn: nat {:trigger Place(root, vpn)} :: v <= vpn < v + n ==> Place(root, vpn) !in pt
  }

  lemma UnmappedStep(pt: map<Place, int>, root: int, v: nat, n: nat)
    ensures Unmapped(pt, root, v, 0) == pt
    ensures Unmapped(pt, root, v, n + 1) == Unmapped(pt, root, v, n) - {Place(root, v + n)}
  {
    var a, b := Unmapped(pt, root, v, 0), Unmapped(pt, root, v, n + 1);
    forall p ensures p in a <==> p in pt {
    }
    assert a.Keys == pt.Keys;
    var c := Unmapped(pt, root, v, n) - {Place(root, v + n)};
    forall p ensures p in b <==> p in c {
      assert InRange(p, root, v, n + 1) <==> InRange(p, root, v, n) || p == Place(root, v + n);
    }
    assert b.Keys == c.Keys;
  }

  /** Some pages of the page table `root` were freed, and nothing else changed but its nodes. */
  ghost predicate Released(mem0: Memory, role0: map<int, Role>, mem1: Memory, role1: map<int, Role>, root: int) {
    && role1.Keys == role0.Keys && mem1.Keys == mem0.Keys
    && forall f {:trigger role1[f]} {:trigger mem1[f]} :: f in role0 && f in mem0 ==>
         && (role1[f] == role0[f] || (!role0[f].Free? && Mine(role0[f], root) && role1[f].Free?))
         && (role1[f] == role0[f] && !(role0[f].Node? && role0[f].key.root == root) ==> mem1[f] == mem0[f])
  }

  lemma ReleasedRefl(mem: Memory, role: map<int, Role>, root: int)
    ensures Released(mem, role, mem, role, root)
  {
  }

  lemma ReleasedTrans(mem0: Memory, role0: map<int, Role>, mem1: Memory, role1: map<int, Role>, mem2: Memory,
      role2: map<int, Role>, root: int)
    requires Released(mem0, role0, mem1, role1, root) && Released(mem1, role1, mem2, role2, root)
    ensures Released(mem0, role0, mem2, role2, root)
  {
    forall f {:trigger role2[f]} {:trigger mem2[f]} | f in role0 && f in mem0
      ensures role2[f] == role0[f] || (!role0[f].Free? && Mine(role0[f], root) && role2[f].Free?)
      ensures role2[f] == role0[f] && !(role0[f].Node? && role0[f].key.root == root) ==> mem2[f] == mem0[f]
    {
      var a, b := role1[f], mem1[f];
    }
  }

  lemma ReleasedLocal(mem0: Memory, role0: map<int, Role>, mem1: Memory, role1: map<int, Role>, root: int)
    requires Released(mem0, role0, mem1, role1, root)
    ensures Local(mem0, role0, mem1, role1, root)
  {
  }

  /** Some free pages were taken for the page table `root`, and nothing else changed but its nodes. */
  ghost predicate Took(mem0: Memory, role0: map<int, Role>, mem1: Memory, role1: map<int, Role>, root: int) {
    && role1.Keys == role0.Keys && mem1.Keys == mem0.Keys
    && forall f {:trigger role1[f]} {:trigger mem1[f]} :: f in role0 && f in mem0 ==>
         && (role1[f] == role0[f] || (role0[f].Free? && Mine(role1[f], root)))
         && (!role0[f].Free? && !(role0[f].Node? && role0[f].key.root == root) ==> mem1[f] == mem0[f])
  }

  lemma TookTrans(mem0: Memory, role0: map<int, Role>, mem1: Memory, role1: map<int, Role>, mem2: Memory,
      role2: map<int, Role>, root: int)
    requires Took(mem0, role0, mem1, role1, root) && Took(mem1, role1, mem2, role2, root)
    ensures Took(mem0, role0, mem2, role2, root)
  {
    forall f {:trigger role2[f]} {:trigger mem2[f]} | f in role0 && f in mem0
      ensures role2[f] == role0[f] || (role0[f].Free? && Mine(role2[f], root))
      ensures !role0[f].Free? && !(role0[f].Node? && role0[f].key.root == root) ==> mem2[f] == mem0[f]
    {
      var a, b := role1[f], mem1[f];
    }
  }

  lemma TookRefl(mem: Memory, role: map<int, Role>, root: int)
    ensures Took(mem, role, mem, role, root)
  {
  }

  lemma TookLocal(mem0: Memory, role0: map<int, Role>, mem1: Memory, role1: map<int, Role>, root: int)
    requires Took(mem0, role0, mem1, role1, root)
    ensures Local(mem0, role0, mem1, role1, root)
  {
  }

  // -------------------------------------------------------- contents of pages

  /** Virtual page p has the given flags and contents. */
  predicate Holds(mem: Memory, pt: map<Place, int>, p: Place, page: Page, flags: int) {
    p in pt && FlagsOf(pt[p]) == flags && FrameOf(pt[p]) in mem && mem[FrameOf(pt[p])] == page
  }

  /** Every user page of pt, in any address space, is mapped as before and has the same contents. */
  ghost predicate PagesKept(mem: Memory, pt: map<Place, int>, mem': Memory, pt': map<Place, int>) {
    forall p {:trigger p in pt} :: p in pt && p.vpn < USERTOP ==>
      && p in pt' && pt'[p] == pt[p] && FrameOf(pt[p]) in mem && FrameOf(pt[p]) in mem'
      && mem'[FrameOf(pt[p])] == mem[FrameOf(pt[p])]
  }

  lemma PagesKeptTrans(mem0: Memory, pt0: map<Place, int>, mem1: Memory, pt1: map<Place, int>, mem2: Memory,
      pt2: map<Place, int>)
    requires PagesKept(mem0, pt0, mem1, pt1) && PagesKept(mem1, pt1, mem2, pt2)
    ensures PagesKept(mem0, pt0, mem2, pt2)
  {
    forall p {:trigger p in pt0} | p in pt0 && p.vpn < USERTOP
      ensures p in pt2 && pt2[p] == pt0[p] && FrameOf(pt0[p]) in mem0 && FrameOf(pt0[p]) in mem2
      ensures mem2[FrameOf(pt0[p])] == mem0[FrameOf(pt0[p])]
    {
      assert p in pt1 && pt1[p] == pt0[p];
      assert p in pt2 && pt2[p] == pt1[p];
    }
  }

  lemma TookPages(lo: int, hi: int, mem0: Memory, role0: map<int, Role>, pt0: map<Place, int>,
                  mem1: Memory, role1: map<int, Role>, pt1: map<Place, int>, root: int)
    requires Frames(lo, hi, mem0, role0) && Leaves(role0, pt0) && Took(mem0, role0, mem1, role1, root)
    requires forall p {:trigger p in pt0} :: p in pt0 ==> p in pt1 && pt1[p] == pt0[p]
    ensures PagesKept(mem0, pt0, mem1, pt1)
  {
    forall p {:trigger p in pt0} | p in pt0 && p.vpn < USERTOP
      ensures p in pt1 && pt1[p] == pt0[p] && FrameOf(pt0[p]) in mem0 && FrameOf(pt0[p]) in mem1
      ensures mem1[FrameOf(pt0[p])] == mem0[FrameOf(pt0[p])]
    {
      var f := FrameOf(pt0[p]);
      assert role0[f] == Leaf(p);
    }
  }

  lemma ReleasedPages(lo: int, hi: int, mem0: Memory, role0: map<int, Role>, pt0: map<Place, int>,
                      mem1: Memory, role1: map<int, Role>, pt1: map<Place, int>, root: int)
    requires Frames(lo, hi, mem0, role0) && Leaves(role0, pt0) && Leaves(role1, pt1)
             && Released(mem0, role0, mem1, role1, root)
    requires forall p {:trigger p in pt1} :: p in pt1 ==> p in pt0 && pt1[p] == pt0[p]
    ensures PagesKept(mem0, pt1, mem1, pt1)
  {
    forall p {:trigger p in pt1} | p in pt1 && p.vpn < USERTOP
      ensures FrameOf(pt1[p]) in mem0 && FrameOf(pt1[p]) in mem1 && mem1[FrameOf(pt1[p])] == mem0[FrameOf(pt1[p])]
    {
      var f := FrameOf(pt1[p]);
      assert pt1[p] == pt0[p];
      assert role1[f] == Leaf(p) && role0[f] == Leaf(p);
    }
  }

  /** n pages from v on hold zeros. */
  ghost predicate Zeroed(mem: Memory, pt: map<Place, int>, root: int, v: nat, n: nat, flags: int) {
    forall vpn: nat {:trigger Place(root, vpn)} ::
        v <= vpn < v + n ==> Holds(mem, pt, Place(root, vpn), Filled(0), flags)
  }

  lemma ZeroedMore(mem0: Memory, pt0: map<Place, int>, mem1: Memory, pt1: map<Place, int>, root: int, v: nat, n: nat,
      flags: int)
    requires Zeroed(mem0, pt0, root, v, n, flags) && PagesKept(mem0, pt0, mem1, pt1) && v + n <= USERTOP
    requires Holds(mem1, pt1, Place(root, v + n), Filled(0), flags)
    ensures Zeroed(mem1, pt1, root, v, n + 1, flags)
  {
    forall vpn: nat {:trigger Place(root, vpn)} | v <= vpn < v + n
      ensures Holds(mem1, pt1, Place(root, vpn), Filled(0), flags) {
      assert Holds(mem0, pt0, Place(root, vpn), Filled(0), flags);
      assert pt1[Place(root, vpn)] == pt0[Place(root, vpn)];
    }
  }

  /** Mapping the page after a range and then unmapping the longer range. */
  lemma UnmappedNext(pt0: map<Place, int>, pt1: map<Place, int>, root: int, v: nat, n: nat, w: int)
    requires Unmapped(pt1, root, v, n) == pt0 && Place(root, v + n) !in pt1
    ensures Unmapped(pt1[Place(root, v + n) := w], root, v, n + 1) == pt0
  {
    var pt2 := pt1[Place(root, v + n) := w];
    UnmappedStep(pt2, root, v, n);
    var a := Unmapped(pt2, root, v, n) - {Place(root, v + n)};
    forall p ensures p in a <==> p in pt0 {
      assert p in pt0 <==> p in Unmapped(pt1, root, v, n);
    }
    forall p | p in a ensures a[p] == pt0[p] {
      assert pt0[p] == Unmapped(pt1, root, v, n)[p];
    }
    assert a.Keys == pt0.Keys;
  }

  // ------------------------------------------------------------- freed subtrees

  /** The nodes at and below `top` were freed, and no other page changed. */
  ghost predicate Cleared(mem0: Memory, role0: map<int, Role>, mem1: Memory, role1: map<int, Role>, top: Key) {
    && role1.Keys == role0.Keys && mem1.Keys == mem0.Keys
    && forall f {:trigger role1[f]} {:trigger mem1[f]} :: f in role0 && f in mem0 ==>
         && (role1[f] == role0[f] || (role0[f].Node? && Under(role0[f].key, top) && role1[f].Free?))
         && (!(role0[f].Node? && Under(role0[f].key, top)) ==> mem1[f] == mem0[f])
  }

  lemma ClearedRefl(mem: Memory, role: map<int, Role>, top: Key)
    ensures Cleared(mem, role, mem, role, top)
  {
  }

  lemma ClearedTrans(mem0: Memory, role0: map<int, Role>, mem1: Memory, role1: map<int, Role>, mem2: Memory,
      role2: map<int, Role>, top: Key)
    requires Cleared(mem0, role0, mem1, role1, top) && Cleared(mem1, role1, mem2, role2, top)
    ensures Cleared(mem0, role0, mem2, role2, top)
  {
    hide Under;
    forall f {:trigger role2[f]} {:trigger mem2[f]} | f in role0 && f in mem0
      ensures role2[f] == role0[f] || (role0[f].Node? && Under(role0[f].key, top) && role2[f].Free?)
      ensures !(role0[f].Node? && Under(role0[f].key, top)) ==> mem2[f] == mem0[f]
    {
      var a, b := role1[f], mem1[f];
    }
  }

  lemma ClearedUp(mem0: Memory, role0: map<int, Role>, node0: map<Key, int>, mem1: Memory, role1: map<int, Role>,
      top: Key, i: nat)
    requires Nodes(role0, node0) && Cleared(mem0, role0, mem1, role1, Child(top, i)) && 0 < top.level <= 2
             && i < ENTRIES
    ensures Cleared(mem0, role0, mem1, role1, top)
  {
    forall f {:trigger role1[f]} {:trigger mem1[f]} | f in role0 && f in mem0
      ensures role1[f] == role0[f] || (role0[f].Node? && Under(role0[f].key, top) && role1[f].Free?)
      ensures !(role0[f].Node? && Under(role0[f].key, top)) ==> mem1[f] == mem0[f]
    {
      if role0[f].Node? {
        assert node0[role0[f].key] == f;
        UnderChild(role0[f].key, top, i);
      }
    }
  }

  lemma ClearedReleased(mem0: Memory, role0: map<int, Role>, mem1: Memory, role1: map<int, Role>, top: Key)
    requires Cleared(mem0, role0, mem1, role1, top)
    ensures Released(mem0, role0, mem1, role1, top.root)
  {
  }

  // ------------------------------------------------------------ whole trees

  /** A page table that does not exist has no nodes and no mappings. */
  lemma {:induction false} NoTree(mem: Memory, role: map<int, Role>, node: map<Key, int>, pt: map<Place, int>,
      root: int)
    requires Nodes(role, node) && Refines(mem, node, pt) && RootKey(root) !in node
    ensures forall k {:trigger k in node} :: k in node ==> k.root != root
    ensures forall p {:trigger p in pt} :: p in pt ==> p.root != root
  {
    forall k {:trigger k in node} | k in node ensures k.root != root {
      ToRoot(role, node, k);
    }
    forall p {:trigger p in pt} | p in pt ensures p.root != root {
      var w := pt[p];
      assert LeafKey(p) in node;
    }
  }

  lemma {:induction false} ToRoot(role: map<int, Role>, node: map<Key, int>, k: Key)
    requires Nodes(role, node) && k in node
    ensures RootKey(k.root) in node && node[RootKey(k.root)] == k.root
    decreases 2 - k.level
  {
    var f := node[k];
    if k.level < 2 {
      ToRoot(role, node, Parent(k));
    } else {
      assert k == RootKey(k.root);
    }
  }

  lemma AddRootNodes(role: map<int, Role>, node: map<Key, int>, f: int)
    requires Nodes(role, node) && f in role && !role[f].Node?
    ensures RootKey(f) !in node && Nodes(role[f := Node(RootKey(f))], node[RootKey(f) := f])
  {
  }

  lemma AddRootLinks(mem: Memory, role: map<int, Role>, node: map<Key, int>, f: int)
    requires Nodes(role, node) && Links(mem, node, NOWHERE) && f in role && !role[f].Node? && f in mem
    ensures Links(mem[f := Filled(0)], node[RootKey(f) := f], NOWHERE)
  {
    var mem', node' := mem[f := Filled(0)], node[RootKey(f) := f];
    AddRootNodes(role, node, f);
    forall k, i: nat {:trigger Child(k, i)} | k in node' && k.level > 0 && i < ENTRIES
      ensures if Child(k, i) in node' then Word(mem', node'[k], i) == Entry(node'[Child(k, i)], 0)
                else !Present(Word(mem', node'[k], i))
    {
      ChildOf(k, i);
      if k == RootKey(f) {
        assert Child(k, i) !in node';
      } else {
        assert 0 <= k.level <= 2 && node[k] != f;
        assert Word(mem', node'[k], i) == Word(mem, node[k], i);
      }
    }
  }

  lemma AddRootRefines(mem: Memory, role: map<int, Role>, node: map<Key, int>, pt: map<Place, int>, f: int)
    requires Nodes(role, node) && Refines(mem, node, pt) && f in role && !role[f].Node? && f in mem
    ensures Refines(mem[f := Filled(0)], node[RootKey(f) := f], pt)
  {
    var mem', node' := mem[f := Filled(0)], node[RootKey(f) := f];
    AddRootNodes(role, node, f);
    forall p {:trigger LeafKey(p)} | LeafKey(p) in node
      ensures Word(mem', node'[LeafKey(p)], p.vpn % ENTRIES) == Word(mem, node[LeafKey(p)], p.vpn % ENTRIES)
    {
      assert node[LeafKey(p)] != f;
    }
  }

  /** The same pages are free as before, and the others have the same roles and contents. */
  ghost predicate Restored(mem0: Memory, role0: map<int, Role>, mem1: Memory, role1: map<int, Role>) {
    && role1.Keys == role0.Keys && mem1.Keys == mem0.Keys
    && forall f {:trigger role1[f]} {:trigger mem1[f]} :: f in role0 && f in mem0 ==>
         if role0[f].Free? then role1[f].Free? else role1[f] == role0[f] && mem1[f] == mem0[f]
  }

  lemma RestoredWhenGone(mem0: Memory, role0: map<int, Role>, node0: map<Key, int>, pt0: map<Place, int>,
                         mem1: Memory, role1: map<int, Role>, node1: map<Key, int>, pt1: map<Place, int>, root: int)
    requires Local(mem0, role0, mem1, role1, root)
    requires Nodes(role0, node0) && Refines(mem0, node0, pt0) && Leaves(role0, pt0) && RootKey(root) !in node0
    requires Nodes(role1, node1) && Refines(mem1, node1, pt1) && Leaves(role1, pt1) && RootKey(root) !in node1
    ensures Restored(mem0, role0, mem1, role1)
  {
    hide Refines;
    NoTree(mem0, role0, node0, pt0, root);
    NoTree(mem1, role1, node1, pt1, root);
    forall f {:trigger role1[f]} {:trigger mem1[f]} | f in role0 && f in mem0
      ensures if role0[f].Free? then role1[f].Free? else role1[f] == role0[f] && mem1[f] == mem0[f]
    {
      assert Mine(role0[f], root) ==> role0[f].Free?;
      assert Mine(role1[f], root) ==> role1[f].Free?;
    }
  }

  lemma RestoredNodes(lo: int, hi: int, mem0: Memory, role0: map<int, Role>, node0: map<Key, int>,
                      mem1: Memory, role1: map<int, Role>, node1: map<Key, int>)
    requires Frames(lo, hi, mem0, role0) && Nodes(role0, node0) && Nodes(role1, node1)
             && Restored(mem0, role0, mem1, role1)
    ensures node1 == node0
  {
    forall k ensures k in node0 ==> k in node1 && node1[k] == node0[k] {
      if k in node0 {
        var f := node0[k];
        assert f in mem0 && role0[f] == Node(k);
        assert role1[f] == Node(k);
      }
    }
    forall k ensures k in node1 ==> k in node0 {
      if k in node1 {
        var f := node1[k];
        assert f in mem0 && role1[f] == Node(k);
        assert role0[f] == Node(k);
      }
    }
    assert node0.Keys == node1.Keys;
  }

  // ---------------------------------------------------------------- copies

  /** The first n pages of address space b are those of a: the same ones are mapped, with the same
      flags and contents. */
  ghost predicate Copied(mem: Memory, pt: map<Place, int>, a: int, b: int, n: nat) {
    forall vpn: nat {:trigger Place(b, vpn)} {:trigger Place(a, vpn)} :: vpn < n ==>
      && (Place(b, vpn) in pt <==> Place(a, vpn) in pt)
      && (Place(a, vpn) in pt ==>
            && FrameOf(pt[Place(a, vpn)]) in mem
            && Holds(mem, pt, Place(b, vpn), mem[FrameOf(pt[Place(a, vpn)])], FlagsOf(pt[Place(a, vpn)])))
  }

  lemma CopiedKept(mem0: Memory, pt0: map<Place, int>, mem1: Memory, pt1: map<Place, int>, a: int, b: int, n: nat)
    requires Copied(mem0, pt0, a, b, n) && PagesKept(mem0, pt0, mem1, pt1) && n <= USERTOP
    requires forall p {:trigger p in pt1} :: p in pt1 && p.vpn < n ==> p in pt0
    ensures Copied(mem1, pt1, a, b, n)
  {
    forall vpn: nat {:trigger Place(b, vpn)} {:trigger Place(a, vpn)} | vpn < n
      ensures Place(b, vpn) in pt1 <==> Place(a, vpn) in pt1
      ensures Place(a, vpn) in pt1 ==>
                && FrameOf(pt1[Place(a, vpn)]) in mem1
                && Holds(mem1, pt1, Place(b, vpn), mem1[FrameOf(pt1[Place(a, vpn)])], FlagsOf(pt1[Place(a, vpn)]))
    {
      var p, q := Place(a, vpn), Place(b, vpn);
      assert p in pt0 <==> q in pt0;
      assert p in pt0 ==> p in pt1;
      assert q in pt0 ==> q in pt1;
    }
  }

  /** What copying page n of a to b, with entry w, makes of the translations. */
  ghost predicate PageCopied(mem0: Memory, pt0: map<Place, int>, mem1: Memory, pt1: map<Place, int>, a: int, b: int,
      n: nat, w: int) {
    if Place(a, n) in pt0 then
      && pt1 == pt0[Place(b, n) := w] && FlagsOf(w) == FlagsOf(pt0[Place(a, n)])
      && FrameOf(w) in mem1 && FrameOf(pt0[Place(a, n)]) in mem0 && mem1[FrameOf(w)] == mem0[FrameOf(pt0[Place(a, n)])]
    else pt1 == pt0
  }

  lemma CopiedNext(mem0: Memory, pt0: map<Place, int>, mem1: Memory, pt1: map<Place, int>, a: int, b: int, n: nat,
      w: int)
    requires Copied(mem0, pt0, a, b, n) && PagesKept(mem0, pt0, mem1, pt1) && n < USERTOP && a != b
             && Place(b, n) !in pt0
    requires PageCopied(mem0, pt0, mem1, pt1, a, b, n, w)
    ensures Copied(mem1, pt1, a, b, n + 1)
  {
    CopiedKept(mem0, pt0, mem1, pt1, a, b, n);
    assert Place(a, n) in pt0 ==>
        Holds(mem1, pt1, Place(b, n), mem1[FrameOf(pt1[Place(a, n)])], FlagsOf(pt1[Place(a, n)]));
  }

  lemma UncopiedNext(pt0: map<Place, int>, mem1: Memory, pt1: map<Place, int>, mem2: Memory, pt2: map<Place, int>,
      a: int, b: int, n: nat, w: int)
    requires Unmapped(pt1, b, 0, n) == pt0 && Place(b, n) !in pt1 && PageCopied(mem1, pt1, mem2, pt2, a, b, n, w)
    ensures Unmapped(pt2, b, 0, n + 1) == pt0
  {
    if Place(a, n) in pt1 {
      UnmappedNext(pt0, pt1, b, 0, n, w);
    } else {
      UnmappedStep(pt1, b, 0, n);
      assert Unmapped(pt1, b, 0, n) - {Place(b, n)} == Unmapped(pt1, b, 0, n);
    }
  }

  // ------------------------------------------------------ whole address spaces

  /** The translations of the other address spaces. */
  function Except(pt: map<Place, int>, root: int): map<Place, int> {
    map p | p in pt && p.root != root :: pt[p]
  }

  /** An address space maps nothing but pages below n, the trapframe and the trampoline. */
  ghost predicate Layout(pt: map<Place, int>, root: int, n: nat) {
    forall p {:trigger p in pt} :: p in pt && p.root == root ==> p.vpn < n || p.vpn == USERTOP || p.vpn == USERTOP + 1
  }

  lemma AllUnmapped(pt: map<Place, int>, root: int, n: nat)
    requires Layout(pt, root, n) && n <= USERTOP
    ensures var pt1 := Unmapped(pt, root, USERTOP + 1, 1);
            var pt2 := Unmapped(pt1, root, USERTOP, 1);
            && (forall p {:trigger p in pt2} :: p in pt2 && p.root == root ==> p.vpn < n)
            && Unmapped(pt2, root, 0, n) == Except(pt, root)
  {
    var pt1 := Unmapped(pt, root, USERTOP + 1, 1);
    var pt2 := Unmapped(pt1, root, USERTOP, 1);
    forall p {:trigger p in pt2} ensures p in pt2 && p.root == root ==> p.vpn < n {
      assert p in pt2 ==> p in pt1 && p in pt;
    }
    var a, b := Unmapped(pt2, root, 0, n), Except(pt, root);
    forall p ensures p in a <==> p in b {
      assert p in a <==> p in pt2 && !InRange(p, root, 0, n);
    }
    assert a.Keys == b.Keys;
  }

  lemma ExceptNew(mem: Memory, role: map<int, Role>, node: map<Key, int>, pt: map<Place, int>, root: int)
    requires Nodes(role, node) && Refines(mem, node, pt) && RootKey(root) !in node
    ensures Except(pt, root) == pt && Layout(pt, root, 0) && Unused(pt, root, 0, MAXPAGE)
  {
    hide Refines, Nodes;
    NoTree(mem, role, node, pt, root);
    forall p ensures p in Except(pt, root) <==> p in pt {
    }
    assert Except(pt, root).Keys == pt.Keys;
  }

  lemma ExceptTop(pt: map<Place, int>, root: int, vpn: nat, w: int)
    requires Place(root, vpn) !in pt
    ensures Except(pt[Place(root, vpn) := w], root) == Except(pt, root)
  {
    var a, b := Except(pt[Place(root, vpn) := w], root), Except(pt, root);
    forall p ensures p in a <==> p in b {
    }
    assert a.Keys == b.Keys;
  }

  lemma LayoutTop(pt: map<Place, int>, root: int, n: nat, w: int, w': int)
    requires Layout(pt, root, n)
    ensures Layout(pt[Place(root, USERTOP + 1) := w], root, n)
    ensures Layout(pt[Place(root, USERTOP + 1) := w][Place(root, USERTOP) := w'], root, n)
  {
  }

  lemma MapTopLeaf(role: map<int, Role>, pt: map<Place, int>, p: Place, w: int)
    requires Leaves(role, pt) && p.vpn >= USERTOP
    ensures Leaves(role, pt[p := w])
  {
  }

  lemma GrewTook(mem0: Memory, role0: map<int, Role>, mem1: Memory, role1: map<int, Role>, root: int)
    requires Grew(role0, role1, root) && DataKept(mem0, mem1, role0, root)
    ensures Took(mem0, role0, mem1, role1, root)
  {
  }

  // ------------------------------------------------- how many pages it takes

  /** The nodes below the root on the way to a virtual page. */
  function Path(p: Place): set<Key> { {PathKey(p, 1), PathKey(p, 0)} }

  /** How many of them there are not. */
  function Lacks(node: map<Key, int>, p: Place): nat {
    (if PathKey(p, 1) in node then 0 else 1) + (if PathKey(p, 0) in node then 0 else 1)
  }

  lemma NoWay(role: map<int, Role>, node: map<Key, int>, p: Place)
    requires Nodes(role, node) && PathKey(p, 1) !in node
    ensures PathKey(p, 0) !in node && Lacks(node, p) == 2
  {
    assert Parent(PathKey(p, 0)) == PathKey(p, 1);
  }

  /** The places in the tree of `root` at which there are nodes, by level and prefix. */
  function Have(node: map<Key, int>, root: int): set<(int, nat)> {
    set k | k in node && k.root == root :: (k.level, k.prefix)
  }

  /** The places of the nodes on the way to virtual page v. */
  function Way(v: nat): set<(int, nat)> { {(1, v / 0x4_0000), (0, v / 512)} }

  function Missing(have: set<(int, nat)>, v: nat): nat {
    (if (1, v / 0x4_0000) in have then 0 else 1) + (if (0, v / 512) in have then 0 else 1)
  }

  /** The pages that it takes to map, of the n virtual pages from v on, those in `want`: `each` for every page, and one
      for every node that is not there yet. */
  function Need(have: set<(int, nat)>, v: nat, n: nat, want: set<nat>, each: nat): nat
    decreases n
  {
    if n == 0 then 0
    else if v in want then each + Missing(have, v) + Need(have + Way(v), v + 1, n - 1, want, each)
    else Need(have, v + 1, n - 1, want, each)
  }

  /** The nodes that are there afterwards. */
  function Reach(have: set<(int, nat)>, v: nat, n: nat, want: set<nat>): set<(int, nat)>
    decreases n
  {
    if n == 0 then have else Reach(if v in want then have + Way(v) else have, v + 1, n - 1, want)
  }

  function Range(v: nat, n: nat): (r: set<nat>)
    ensures forall x {:trigger x in r} :: x in r <==> v <= x < v + n
    decreases n
  {
    if n == 0 then {} else {v} + Range(v + 1, n - 1)
  }

  /** The virtual pages below n that address space a maps. */
  function MappedBy(pt: map<Place, int>, a: int, n: nat): set<nat> { set x | 0 <= x < n && Place(a, x) in pt }

  lemma HaveIs(node: map<Key, int>, root: int, level: int, prefix: nat)
    ensures (level, prefix) in Have(node, root) <==> Key(root, level, prefix) in node
  {
    if Key(root, level, prefix) in node {
      var k := Key(root, level, prefix);
      assert k.root == root && (k.level, k.prefix) == (level, prefix);
    }
  }

  lemma LacksMissing(node: map<Key, int>, p: Place)
    ensures Lacks(node, p) == Missing(Have(node, p.root), p.vpn)
  {
    HaveIs(node, p.root, 1, p.vpn / 0x4_0000);
    HaveIs(node, p.root, 0, p.vpn / 512);
  }

  lemma HaveMore(node: map<Key, int>, node': map<Key, int>, p: Place)
    requires node'.Keys == node.Keys + Path(p)
    ensures Have(node', p.root) == Have(node, p.root) + Way(p.vpn)
  {
    forall x: (int, nat) ensures x in Have(node', p.root) <==> x in Have(node, p.root) + Way(p.vpn) {
      HaveIs(node', p.root, x.0, x.1);
      HaveIs(node, p.root, x.0, x.1);
      assert Key(p.root, x.0, x.1) in node' <==> Key(p.root, x.0, x.1) in node.Keys + Path(p);
    }
  }

  /** With `done` of n virtual pages done: what is free covers what is left exactly as what was free covered all. */
  ghost predicate Budget(f0: nat, have0: set<(int, nat)>, f: nat, have: set<(int, nat)>, v: nat, done: nat, n: nat,
                         want: set<nat>, each: nat) {
    && done <= n && f - Need(have, v + done, n - done, want, each) == f0 - Need(have0, v, n, want, each)
    && Reach(have, v + done, n - done, want) == Reach(have0, v, n, want)
  }

  lemma BudgetStart(f: nat, have: set<(int, nat)>, v: nat, n: nat, want: set<nat>, each: nat)
    ensures Budget(f, have, f, have, v, 0, n, want, each)
  {
  }

  lemma BudgetStep(f0: nat, have0: set<(int, nat)>, f: nat, have: set<(int, nat)>, f': nat, have': set<(int, nat)>,
                   v: nat, done: nat, n: nat, want: set<nat>, each: nat)
    requires Budget(f0, have0, f, have, v, done, n, want, each) && done < n
    requires if v + done in want then f' == f - each - Missing(have, v + done) && have' == have + Way(v + done)
             else f' == f && have' == have
    ensures Budget(f0, have0, f', have', v, done + 1, n, want, each)
  {
    hide Missing, Way;
  }

  lemma BudgetShort(f0: nat, have0: set<(int, nat)>, f: nat, have: set<(int, nat)>, v: nat, done: nat, n: nat,
                    want: set<nat>, each: nat)
    requires Budget(f0, have0, f, have, v, done, n, want, each) && done < n
    requires v + done in want && f < each + Missing(have, v + done)
    ensures f0 < Need(have0, v, n, want, each)
  {
    hide Missing, Way;
  }

  lemma BudgetEnd(f0: nat, have0: set<(int, nat)>, f: nat, have: set<(int, nat)>, v: nat, n: nat, want: set<nat>,
      each: nat)
    requires Budget(f0, have0, f, have, v, n, n, want, each)
    ensures f == f0 - Need(have0, v, n, want, each) && have == Reach(have0, v, n, want)
  {
  }

  lemma OneNeed(have: set<(int, nat)>, v: nat)
    ensures Need(have, v, 1, Range(v, 1), 0) == Missing(have, v) && Reach(have, v, 1, Range(v, 1)) == have + Way(v)
  {
    hide Missing, Way;
    assert v in Range(v, 1);
    assert Need(have + Way(v), v + 1, 0, Range(v, 1), 0) == 0;
  }

  /** The nodes of a page table that maps only the trampoline and the trapframe. */
  function TopNodes(): set<(int, nat)> { {(2, 0)} + Way(USERTOP + 1) }

  /** A new page table has its root alone, and the trampoline needs two nodes more. */
  lemma HaveRoot(role: map<int, Role>, node: map<Key, int>, node': map<Key, int>, root: int)
    requires Nodes(role, node) && RootKey(root) !in node && node' == node[RootKey(root) := root]
    ensures Have(node', root) == {(2, 0)} && Missing({(2, 0)}, USERTOP + 1) == 2
    ensures {(2, 0)} + Way(USERTOP + 1) == TopNodes()
  {
    forall x: (int, nat) ensures x in Have(node', root) <==> x == (2, 0) {
      HaveIs(node', root, x.0, x.1);
      if Key(root, x.0, x.1) in node {
        ToRoot(role, node, Key(root, x.0, x.1));
      }
    }
  }

  /** The trapframe is mapped by the nodes that map the trampoline, so that no number of free pages is too small. */
  lemma TopShared(free: nat)
    ensures TopNodes() + Way(USERTOP) == TopNodes() && Missing(TopNodes(), USERTOP) <= free
  {
    assert Way(USERTOP) == Way(USERTOP + 1);
  }

  lemma SameMappedBy(pt: map<Place, int>, pt': map<Place, int>, a: int, n: nat)
    requires forall x: nat {:trigger Place(a, x)} :: Place(a, x) in pt <==> Place(a, x) in pt'
    ensures MappedBy(pt, a, n) == MappedBy(pt', a, n)
  {
  }

  // -------------------------------------------------- what the hardware sees

  datatype Translation = Fault | Page(entry: int)

  /** An entry that translates: present, and readable, or executable and not writable. With none of the three bits an
      entry is a pointer, and writable without readable is reserved. */
  predicate Usable(w: int) {
    Present(w) && ((w / 2) % 2 == 1 || ((w / 8) % 2 == 1 && (w / 4) % 2 == 0))
  }

  lemma ReadBit(f: int, g: int)
    ensures (f * 1024 + g) / 2 == f * 512 + g / 2 && (f * 512 + g / 2) % 2 == (g / 2) % 2
  {
    assert f * 1024 + g == 2 * (f * 512) + g;
    assert f * 512 + g / 2 == 2 * (f * 256) + g / 2;
  }

  /** Every readable mapping is one. */
  lemma ReadableUsable(f: int, flags: int)
    requires 0 <= f && 0 <= flags < 1024 && (flags / 2) % 2 == 1
    ensures Usable(Entry(f, flags))
  {
    var g := if flags % 2 == 1 then flags else flags + 1;
    assert g / 2 == flags / 2;
    EntryParity(f, g);
    ReadBit(f, g);
  }

  /** The address translation of section 4.3.2 of the RISC-V privileged architecture, version 20211203, for
      4096-byte pages: three entries are read, of which the first two must be pointers and the last must translate. */
  function Translate(mem: Memory, root: int, va: nat): Translation {
    var e2 := Word(mem, root, PX(2, va));
    if !Pointer(e2) then Fault else
    var e1 := Word(mem, FrameOf(e2), PX(1, va));
    if !Pointer(e1) then Fault else
    var e0 := Word(mem, FrameOf(e1), PX(0, va));
    if Usable(e0) then Page(e0) else Fault
  }

  /** Below MAXVA the hardware's translation is the partial map, for the mappings that it accepts. */
  lemma HardwareAgrees(lo: int, hi: int, mem: Memory, role: map<int, Role>, node: map<Key, int>, pt: map<Place, int>,
      root: int, va: nat)
    requires Frames(lo, hi, mem, role) && Nodes(role, node) && Links(mem, node, NOWHERE) && Refines(mem, node, pt)
    requires RootKey(root) in node && va < MAXPAGE * PGSIZE
    ensures var p := Place(root, va / PGSIZE);
            Translate(mem, root, va) == if p in pt && Usable(pt[p]) then Page(pt[p]) else Fault
  {
    hide Entry, PathKey, PX, Frames;
    var p := Place(root, va / PGSIZE);
    PathStep(root, va);
    var k2, k1, k0 := PathKey(p, 2), PathKey(p, 1), PathKey(p, 0);
    assert node[k2] == root;
    LinkAgrees(lo, hi, mem, role, node, k2, PX(2, va));
    if k1 in node {
      LinkAgrees(lo, hi, mem, role, node, k1, PX(1, va));
    } else {
      NoPath(role, node, k1, k0, PX(1, va));
    }
  }

  lemma LinkAgrees(lo: int, hi: int, mem: Memory, role: map<int, Role>, node: map<Key, int>, k: Key, i: nat)
    requires Frames(lo, hi, mem, role) && Nodes(role, node) && Links(mem, node, NOWHERE) && k in node && 0 < k.level
             && i < ENTRIES
    ensures Pointer(Word(mem, node[k], i)) <==> Child(k, i) in node
    ensures Child(k, i) in node ==> FrameOf(Word(mem, node[k], i)) == node[Child(k, i)]
  {
    hide Entry;
    var c := Child(k, i);
    if c in node {
      var f := node[c];
      assert f in role;
      EntryFacts(f, 0);
    }
  }

  lemma NoPath(role: map<int, Role>, node: map<Key, int>, k: Key, c: Key, i: nat)
    requires Nodes(role, node) && k !in node && c == Child(k, i) && i < ENTRIES && c.level < 2
    ensures c !in node
  {
    ChildOf(k, i);
  }

  /** A role is a fact about where the page is found. */
  predicate Backed(r: Role, f: int, flist: seq<int>, node: map<Key, int>, pt: map<Place, int>) {
    match r
    case Free(i) => i < |flist| && flist[i] == f
    case Node(k) => k in node && node[k] == f
    case Leaf(p) => p in pt && p.vpn < USERTOP && FrameOf(pt[p]) == f
    case Held => true
  }

  /** In plain terms: the pages on the free list, the page-table pages and the pages of user memory are
      pairwise different, and together with those in the kernel's hands they are all pages. */
  lemma OneUse(lo: int, hi: int, mem: Memory, role: map<int, Role>, head: int, flist: seq<int>, node: map<Key, int>,
      pt: map<Place, int>)
    requires Frames(lo, hi, mem, role) && FreeList(mem, role, head, flist) && Nodes(role, node) && Leaves(role, pt)
    ensures forall i, j :: 0 <= i < j < |flist| ==> flist[i] != flist[j]
    ensures forall i, k :: 0 <= i < |flist| && k in node ==> flist[i] != node[k]
    ensures forall k, k' :: k in node && k' in node && k != k' ==> node[k] != node[k']
    ensures forall p, p' ::
              p in pt && p' in pt && p != p' && p.vpn < USERTOP && p'.vpn < USERTOP ==>
                FrameOf(pt[p]) != FrameOf(pt[p'])
    ensures forall p, i :: p in pt && p.vpn < USERTOP && 0 <= i < |flist| ==> FrameOf(pt[p]) != flist[i]
    ensures forall p, k :: p in pt && p.vpn < USERTOP && k in node ==> FrameOf(pt[p]) != node[k]
    ensures forall f :: lo <= f < hi ==>
              f in role && Backed(role[f], f, flist, node, pt)
  {
    hide FrameOf;
    forall p, i | p in pt && p.vpn < USERTOP && 0 <= i < |flist| ensures FrameOf(pt[p]) != flist[i] {
      assert role[FrameOf(pt[p])] == Leaf(p) && role[flist[i]] == Free(i);
    }
    forall p, k | p in pt && p.vpn < USERTOP && k in node ensures FrameOf(pt[p]) != node[k] {
      assert role[FrameOf(pt[p])] == Leaf(p) && role[node[k]] == Node(k);
    }
  }
}
