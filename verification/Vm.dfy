/**
 * kernel/kalloc.c and kernel/vm.c: the page allocator and the user page tables, on physical memory as
 * PageRam describes it.  Addresses of pages are given by page number.
 */
module Vm {
  import opened PageRam
  import opened PageSteps

  class Memory {
    var mem: map<int, Page>
    var free: seq<int>
    ghost var role: map<int, Role>

    ghost function R(): Ram
      reads this
    {
      Ram(mem, free, role)
    }

    ghost predicate Kernel()
      reads this
    {
      Good(R()) && forall p :: p in role ==> KERNBASE <= p < PHYSTOP
    }

    // ----- kalloc.c

    /** kinit and freerange: every page between the end of the kernel and PHYSTOP becomes free. */
    constructor (end: int)
      requires KERNBASE * PGSIZE <= end <= PHYSTOP * PGSIZE
      ensures Kernel() && forall p :: p in role <==> end <= p * PGSIZE && p < PHYSTOP
      ensures forall p :: p in role ==> role[p] == Free
    {
      mem, free, role := map[], [], map[];
      new;
      var first := (end + PGSIZE - 1) / PGSIZE;
      var p := first;
      while (p + 1) * PGSIZE <= PHYSTOP * PGSIZE
        invariant first <= p <= PHYSTOP && Kernel()
        invariant forall q :: q in role <==> first <= q < p
        invariant forall q :: q in role ==> role[q] == Free
        decreases PHYSTOP - p
      {
        FirstFree(R(), p);
        Kfree(p);
        p := p + 1;
      }
    }

    /** The precondition is the kfree panic. */
    method Kfree(p: int)
      requires KERNBASE <= p < PHYSTOP
      modifies this`mem, this`free, this`role
      ensures R() == Released(old(R()), p)
    {
      mem := mem[p := Filled(1)];
      free := [p] + free;
      role := role[p := Free];
    }

    method Kalloc() returns (p: int)
      requires Kernel()
      modifies this`mem, this`free, this`role
      ensures old(free) == [] ==> p == 0 && R() == old(R())
      ensures old(free) != [] ==> p == old(free)[0] && R() == Taken(old(R()))
      ensures p != 0 <==> old(free) != []
      ensures Kernel() && (p != 0 ==> p in role && role[p] == Held && p in old(role) && old(role)[p] == Free)
    {
      ghost var r := R();
      if |free| == 0 {
        return 0;
      }
      TakenSound(r, map[]);
      p := free[0];
      free := free[1..];
      mem := mem[p := Filled(5)];
      role := role[p := Held];
    }

    // ----- walk

    ghost predicate AtLevel(node: int, root: int, level: int, v: int)
      requires 0 <= level <= 2
      reads this
    {
      IsNode(R(), node, root, level, if level == 2 then 0 else if level == 1 then v / 0x4_0000 else v / 512)
    }

    /** One turn of walk's loop: from the table at level to the table below it, made if need be. */
    method WalkStep(root: int, node: int, level: int, v: int, alloc: bool) returns (c: int)
      requires Kernel() && 1 <= level <= 2 && 0 <= v < VPNS && AtLevel(node, root, level, v)
      modifies this`mem, this`free, this`role
      ensures Kernel() && (c != 0 ==> AtLevel(c, root, level - 1, v))
      ensures !alloc ==> R() == old(R())
      ensures !alloc && c == 0 ==> !Valid(Entry(R(), node, Px(level, v)))
      ensures alloc && c == 0 ==> free == []
      ensures Steps(old(R()), R(), root) && |free| <= |old(free)| <= |free| + 1
    {
      hide Good, Steps, Valid, Ppn, Make, Px;
      ghost var r := R();
      TableAt(r, node);
      StepsSelf(r, root);
      var i := Px(level, v);
      var e := mem[node].ptes[i];
      assert e == Entry(r, node, i);
      IndexOf(level, v);
      if Valid(e) {
        ChildOf(r, node, i);
        c := Ppn(e);
        return;
      }
      if !alloc {
        return 0;
      }
      c := Kalloc();
      if c == 0 {
        return;
      }
      ghost var r1 := R();
      TakenSame(r, root);
      mem := mem[c := EmptyTable()];
      mem := mem[node := Table(mem[node].ptes[i := Make(c, PTE_V)])];
      role := role[c := Node(root, level - 1, role[node].x * 512 + i, node)];
      AttachedSame(r1, node, i, c);
      assert R() == Attached(r1, node, i, c);
      GrowSteps(r, node, i, c);
    }

    /** The bottom table for page v, or 0: for lack of memory when alloc is set, else because there is none.
        No translation changes. */
    method Walk(root: int, v: int, alloc: bool) returns (q: int)
      requires Kernel() && IsRoot(R(), root) && 0 <= v < VPNS
      modifies this`mem, this`free, this`role
      ensures Kernel() && Steps(old(R()), R(), root) && |free| <= |old(free)| <= |free| + 2
      ensures !alloc ==> R() == old(R())
      ensures !alloc || q != 0 ==> q == Node0(R(), root, v)
      ensures q != 0 ==> IsNode(R(), q, root, 0, v / 512)
      ensures alloc && q == 0 ==> free == []
    {
      hide Good, Steps, Pte, Node0, Node1;
      StepsSelf(R(), root);
      q := root;
      var level := 2;
      while level > 0
        invariant 0 <= level <= 2 && Kernel() && AtLevel(q, root, level, v)
        invariant Steps(old(R()), R(), root) && |free| <= |old(free)| <= |free| + 2 - level
        invariant !alloc ==> R() == old(R())
        invariant level == 2 ==> q == root
        invariant !alloc && level == 1 ==> q == Node1(R(), root, v)
      {
        ghost var r := R();
        var c := WalkStep(root, q, level, v, alloc);
        StepsMore(old(R()), r, R(), root);
        if c == 0 {
          if !alloc {
            NoNode(R(), root, v, level);
          }
          return 0;
        }
        if level == 2 {
          LevelOne(R(), root, c, v);
        }
        q := c;
        level := level - 1;
      }
      PathUp(R(), root, q, v);
    }

    // ----- mappages

    /** One turn of mappages: map page v to p, or fail for lack of memory and change no translation. */
    method MapOne(root: int, v: int, p: int, perm: int) returns (ok: bool)
      requires Kernel() && IsRoot(R(), root) && Fit(R(), v, p, perm) && !Valid(Pte(R(), root, v))
      modifies this`mem, this`free, this`role
      ensures Kernel()
      ensures !ok ==> free == [] && Steps(old(R()), R(), root)
      ensures ok ==> MapDone(old(R()), R(), root, v, Make(p, WithV(perm)))
      ensures |free| <= |old(free)| <= |free| + 2
    {
      hide Good, Pte, Node0, Valid, Ppn, IsLeaf, User, Make, Steps, MapDone;
      ghost var r := R();
      var q := Walk(root, v, true);
      ghost var r1 := R();
      HeldKept(r, r1, root, v, p);
      if q == 0 {
        return false;
      }
      var e := Make(p, WithV(perm));
      var i := Px(0, v);
      WithVParts(p, perm);
      TableAt(r1, q);
      BottomEntry(r1, root, q, v);
      MapSteps(r1, q, i, e);
      mem := mem[q := Table(mem[q].ptes[i := e])];
      if v < USER {
        role := role[p := Leaf(root, v, q)];
      }
      assert R() == Mapped(r1, q, i, e);
      MapAfterSteps(r, r1, R(), root, v, e);
      ok := true;
    }

    /** Map every page that [va, va + size) touches to the pages from pa on.  n is the number of pages mapped:
        all of them, or those before the one for which there was no memory.  The precondition that the pages
        are unmapped is the remap panic; size is positive in every call. */
    method Mappages(root: int, va: int, size: int, pa: int, perm: int) returns (ok: bool, ghost n: int)
      requires Kernel() && IsRoot(R(), root) && 0 <= va && 0 < size && va + size <= MAXVA
      requires Ready(R(), root, va / PGSIZE, pa, va / PGSIZE, (va + size - 1) / PGSIZE + 1, perm)
      modifies this`mem, this`free, this`role
      ensures Kernel() && MapRange(old(R()), R(), root, va / PGSIZE, pa, n, perm)
      ensures ok ==> n == (va + size - 1) / PGSIZE - va / PGSIZE + 1
      ensures !ok ==> 0 <= n <= (va + size - 1) / PGSIZE - va / PGSIZE && free == []
      ensures |free| <= |old(free)| <= |free| + 2 * ((va + size - 1) / PGSIZE - va / PGSIZE + 1)
    {
      hide Good, Pte, Valid, Make, Steps, MapDone, MapRange, Fit;
      ghost var a0 := va / PGSIZE;
      var a := va / PGSIZE;
      var last := (va + size - 1) / PGSIZE;
      var p := pa;
      ghost var r := R();
      MapRangeNone(r, root, a, pa, perm);
      n := 0;
      ok := true;
      while true
        invariant Kernel() && IsRoot(R(), root) && 0 <= n <= last - a0 && MapRange(r, R(), root, a0, pa, n, perm)
        invariant r.role.Keys == role.Keys && Ready(R(), root, a0, pa, a, last + 1, perm)
        invariant a == a0 + n && p == pa + n && ok && |free| <= |old(free)| <= |free| + 2 * n
        decreases last - a
      {
        ghost var r1 := R();
        RangeFit(r1, root, a0, pa, a, last + 1, perm);
        ok := MapOne(root, a, p, perm);
        if !ok {
          MapRangeSteps(r, r1, R(), root, a0, pa, n, perm);
          return;
        }
        HeldBefore(r, r1, root, a0, pa, n, perm);
        MapRangeMore(r, r1, R(), root, a0, pa, n, perm);
        MapRoot(r1, R(), root, a, Make(p, WithV(perm)));
        StillReady(r1, R(), root, a0, pa, a, last + 1, perm);
        n := n + 1;
        if a == last {
          break;
        }
        a := a + 1;
        p := p + 1;
      }
    }

    // ----- uvmunmap

    /** One turn of uvmunmap. */
    method UnmapOne(root: int, v: int, doFree: bool)
      requires Kernel() && IsRoot(R(), root) && 0 <= v < VPNS && Valid(Pte(R(), root, v)) && (doFree <==> v < USER)
      modifies this`mem, this`free, this`role
      ensures Kernel() && UnmapDone(old(R()), R(), root, v, v + 1)
    {
      hide Good, Pte, Node0, Valid, Ppn, UnmapDone, Steps;
      ghost var r := R();
      var q := Walk(root, v, false);
      SomeNode(r, root, v);
      var i := Px(0, v);
      TableAt(r, q);
      BottomEntry(r, root, q, v);
      var e := mem[q].ptes[i];
      if doFree {
        DropGood(r, q, i);
        DropSteps(r, q, i);
        var p := Ppn(e);
        Kfree(p);
        mem := mem[q := Table(mem[q].ptes[i := 0])];
        assert R() == Dropped(r, q, i);
      } else {
        ClearSteps(r, q, i);
        mem := mem[q := Table(mem[q].ptes[i := 0])];
        assert R() == Unmapped(r, q, i);
      }
    }

    /** Unmap npages pages from va on and free them, or only unmap them at or above the trapframe.  The
        precondition that they are mapped rules out the panics. */
    method Uvmunmap(root: int, va: int, npages: int, doFree: bool)
      requires Kernel() && IsRoot(R(), root) && 0 <= va && va % PGSIZE == 0 && 0 <= npages
               && va / PGSIZE + npages <= VPNS
      requires if doFree then va / PGSIZE + npages <= USER else USER <= va / PGSIZE
      requires forall v :: va / PGSIZE <= v < va / PGSIZE + npages ==> Valid(Pte(R(), root, v))
      modifies this`mem, this`free, this`role
      ensures Kernel() && UnmapDone(old(R()), R(), root, va / PGSIZE, va / PGSIZE + npages)
    {
      hide Good, Pte, Valid, UnmapDone;
      ghost var r := R();
      ghost var lo := va / PGSIZE;
      var a := va;
      UnmapNone(r, root, lo);
      while a < va + npages * PGSIZE
        invariant Kernel() && a % PGSIZE == 0 && va <= a <= va + npages * PGSIZE
        invariant UnmapDone(r, R(), root, lo, a / PGSIZE) && IsRoot(R(), root)
        invariant forall v :: a / PGSIZE <= v < lo + npages ==> Valid(Pte(R(), root, v))
      {
        ghost var r1 := R();
        UnmapOne(root, a / PGSIZE, doFree);
        UnmapMore(r, r1, R(), root, lo, a / PGSIZE, a / PGSIZE + 1);
        StillMapped(r1, R(), root, a / PGSIZE, lo + npages);
        a := a + PGSIZE;
      }
    }

    // ----- freewalk

    /** Free the table p and all tables below it.  The precondition rules out the leaf panic.  The entry that
        refers to p is left for the caller to clear. */
    method Freewalk(p: int)
      requires Kernel() && p in role && role[p].Node? && LeafFree(R(), role[p])
      modifies this`mem, this`free, this`role
      ensures Sound(R(), LinkOf(p, old(role)[p])) && FreedUnder(old(R()), R(), old(role)[p])
      ensures role.Keys == old(role).Keys
      decreases role[p].level
    {
      hide Good, Sound, Valid, FreedBelow, FreedUnder, LeafFree, LinkOf, Make, Ppn, IsLeaf;
      ghost var r := R();
      ghost var n := role[p];
      TableAt(r, p);
      NoneFreed(r, p);
      LevelOk(r, p);
      var i := 0;
      while i < 512
        invariant 0 <= i <= 512 && Kernel() && FreedBelow(r, R(), p, i) && r.role.Keys == role.Keys && role[p] == n
      {
        ghost var r1 := R();
        TableAt(r1, p);
        var pte := mem[p].ptes[i];
        if Valid(pte) {
          ChildReady(r, r1, p, i);
        }
        if Valid(pte) && !IsLeaf(pte) {
          var child := Ppn(pte);
          Freewalk(child);
          Cut(r, r1, R(), p, i, child);
          mem := mem[p := Table(mem[p].ptes[i := 0])];
        } else if Valid(pte) {
          assert false;
        } else {
          FreedBelowSkip(r, r1, p, i);
        }
        i := i + 1;
      }
      ghost var r1 := R();
      AllInvalid(r, r1, p);
      FreedAll(r, r1, p);
      Kfree(p);
    }

    // ----- creating and freeing user page tables

    method Uvmcreate() returns (root: int)
      requires Kernel()
      modifies this`mem, this`free, this`role
      ensures Kernel()
      ensures root == 0 <==> old(free) == []
      ensures root == 0 ==> R() == old(R())
      ensures root != 0 ==> NoneOf(old(R()), root) && IsRoot(R(), root) && Others(old(R()), R(), root, {})
      ensures root != 0 ==> forall v :: 0 <= v < VPNS ==> Pte(R(), root, v) == 0
      ensures root != 0 ==> free == old(free)[1..]
    {
      hide Good, Pte, NoneOf;
      ghost var r := R();
      root := Kalloc();
      if root == 0 {
        return;
      }
      FreshRoot(r, root);
      RootedGood(R(), root);
      CreateOthers(r, root);
      mem := mem[root := EmptyTable()];
      role := role[root := Node(root, 2, 0, 0)];
      assert R() == Rooted(Taken(r), root);
      forall v | 0 <= v < VPNS ensures Pte(R(), root, v) == 0 {
        EmptyTranslation(R(), root, v);
      }
    }

    /** freewalk on a table that maps nothing gives all its pages back. */
    method FreeTree(root: int)
      requires Kernel() && IsRoot(R(), root) && forall v :: 0 <= v < VPNS ==> Pte(R(), root, v) == 0
      modifies this`mem, this`free, this`role
      ensures Kernel() && NoneOf(R(), root) && Others(old(R()), R(), root, {})
    {
      hide Pte, LeafFree, FreedUnder, NoneOf;
      ghost var r := R();
      NoLeaves(r, root);
      Freewalk(root);
      RootGone(r, R(), root);
    }

    // ----- user memory

    method Uvmfree(root: int, sz: int)
      requires Kernel() && 0 <= sz && Image(R(), root, Pages(sz)) && Pages(sz) <= USER
      requires forall v :: USER <= v < VPNS ==> Pte(R(), root, v) == 0
      modifies this`mem, this`free, this`role
      ensures Kernel() && NoneOf(R(), root) && Others(old(R()), R(), root, {})
    {
      hide Good, Pte, Valid, UnmapDone;
      ghost var r := R();
      UnmapNone(r, root, 0);
      if sz > 0 {
        Uvmunmap(root, 0, Pages(sz), true);
      }
      ghost var r1 := R();
      NothingMapped(r, r1, root, Pages(sz));
      FreeTree(root);
      OthersMore(r, r1, R(), root, {});
    }

    /** Allocate a page with the given bytes and map it at v; on failure nothing root maps has changed. */
    method AllocAt(root: int, v: int, page: Page, perm: int) returns (ok: bool)
      requires Kernel() && IsRoot(R(), root) && 0 <= v < USER && !Valid(Pte(R(), root, v))
      requires page.Bytes? && |page.bytes| == PGSIZE && 0 <= perm < 1024 && perm / 2 % 8 != 0
      modifies this`mem, this`free, this`role
      ensures Kernel()
      ensures !ok ==> Steps(old(R()), R(), root)
      ensures ok ==>
                && old(free) != [] && IsRoot(R(), root) && Others(old(R()), R(), root, {})
                && OtherSame(old(R()), R(), root, v, v + 1)
      ensures ok ==>
                Pte(R(), root, v) == Make(old(free)[0], WithV(perm)) && old(free)[0] in mem && mem[old(free)[0]] == page
      ensures !ok ==> |old(free)| <= 3
      ensures ok ==> |old(free)| <= |free| + 3
    {
      hide Good, Pte, Valid, Make, MapRange, Ready, Steps, Others, OtherSame;
      ghost var r := R();
      StepsSelf(r, root);
      var p := Kalloc();
      if p == 0 {
        return false;
      }
      OnePage(r, root, v, page, perm);
      mem := mem[p := page];
      ghost var n;
      ok, n := Mappages(root, v * PGSIZE, PGSIZE, p, perm);
      if !ok {
        GrowUndone(r, R(), root, v, page, perm);
        Kfree(p);
      } else {
        GrowDone(r, R(), root, v, page, perm);
      }
    }

    // ----- growing and shrinking

    /** Shrink the process; the pages given up must be mapped. */
    method Uvmdealloc(root: int, oldsz: int, newsz: int) returns (sz: int)
      requires Kernel() && IsRoot(R(), root) && 0 <= oldsz && 0 <= newsz && Pages(oldsz) <= USER
      requires forall v :: Pages(newsz) <= v < Pages(oldsz) ==> Valid(Pte(R(), root, v))
      modifies this`mem, this`free, this`role
      ensures Kernel()
      ensures newsz >= oldsz ==> sz == oldsz && R() == old(R())
      ensures newsz < oldsz ==> sz == newsz && UnmapDone(old(R()), R(), root, Pages(newsz), Pages(oldsz))
    {
      hide Good, Pte, Valid, UnmapDone;
      if newsz >= oldsz {
        return oldsz;
      }
      UnmapNone(R(), root, Pages(newsz));
      if Pages(newsz) < Pages(oldsz) {
        var npages := Pages(oldsz) - Pages(newsz);
        assert Pages(newsz) * PGSIZE / PGSIZE == Pages(newsz);
        Uvmunmap(root, Pages(newsz) * PGSIZE, npages, true);
      }
      return newsz;
    }

    /** Grow the process with zeroed pages, or fail and leave what it maps as it was.  Physical memory runs out
        before the pages reach the trapframe, so neither remap nor walk can panic. */
    method Uvmalloc(root: int, oldsz: int, newsz: int) returns (sz: int)
      requires Kernel() && 0 <= oldsz && 0 <= newsz && Pages(oldsz) <= USER && Image(R(), root, Pages(oldsz))
      modifies this`mem, this`free, this`role
      ensures Kernel()
      ensures newsz < oldsz ==> sz == oldsz && R() == old(R())
      ensures oldsz <= newsz ==> sz == newsz || sz == 0
      ensures oldsz <= newsz && sz == newsz ==>
                && Pages(newsz) <= USER && Grown(old(R()), R(), root, Pages(oldsz), Pages(newsz))
                && Image(R(), root, Pages(newsz))
      ensures oldsz <= newsz && sz != newsz ==> Steps(old(R()), R(), root) && Image(R(), root, Pages(oldsz))
      ensures oldsz <= newsz && sz != newsz ==> |old(free)| <= 3 * (Pages(newsz) - Pages(oldsz))
      ensures oldsz <= newsz && sz == newsz ==> |old(free)| <= |free| + 3 * (Pages(newsz) - Pages(oldsz))
    {
      hide Good, Pte, Valid, Make, Grown, Steps, UnmapDone, Image, Others, OtherSame;
      if newsz < oldsz {
        return oldsz;
      }
      ghost var r := R();
      var lo := Pages(oldsz);
      var a := lo;
      ImageRoot(r, root, lo);
      GrownNone(r, root, lo);
      while a * PGSIZE < newsz
        invariant Kernel() && lo <= a <= USER && Grown(r, R(), root, lo, a) && Image(R(), root, a)
        invariant a == lo || a <= Pages(newsz)
        invariant |r.free| <= |free| + 3 * (a - lo)
        decreases newsz - a * PGSIZE
      {
        ghost var r1 := R();
        PoolBound(r1, root, a);
        ImageRoot(r1, root, a);
        var ok := AllocAt(root, a, Filled(0), PTE_W + PTE_X + PTE_R + PTE_U);
        if !ok {
          ghost var r2 := R();
          StepsImage(r1, r2, root, a);
          ImageRoot(r2, root, a);
          UndoRange(r2, root, lo, a);
          UnmapNone(r2, root, lo);
          var d := Uvmdealloc(root, a * PGSIZE, lo * PGSIZE);
          GrowUndo(r, r1, r2, R(), root, lo, a);
          StepsImage(r, R(), root, lo);
          return 0;
        }
        GrowMore(r, r1, R(), root, lo, a, r1.free[0]);
        a := a + 1;
      }
      return newsz;
    }

    // ----- uvmclear

    /** Take page v away from the user; it stays mapped.  The precondition is the uvmclear panic. */
    method Uvmclear(root: int, v: int)
      requires Kernel() && IsRoot(R(), root) && 0 <= v < VPNS && Node0(R(), root, v) != 0
      modifies this`mem, this`free, this`role
      ensures Kernel() && IsRoot(R(), root) && Others(old(R()), R(), root, {})
              && OtherSame(old(R()), R(), root, v, v + 1)
      ensures Pte(R(), root, v) == WithoutU(Pte(old(R()), root, v)) && !User(Pte(R(), root, v))
      ensures role == old(role) && free == old(free)
    {
      hide Good, Pte, Node0, Valid, Ppn, User, IsLeaf, Steps, WithoutU;
      ghost var r := R();
      var q := Walk(root, v, false);
      var i := Px(0, v);
      TableAt(r, q);
      BottomEntry(r, root, q, v);
      var e := mem[q].ptes[i];
      WithoutUWeaker(e);
      WeakerGood(r, q, i, WithoutU(e));
      ClearedSame(r, q, i, root, v);
      mem := mem[q := Table(mem[q].ptes[i := WithoutU(e)])];
      assert R() == SetEntry(r, q, i, WithoutU(e));
    }

    // ----- copying to and from user memory

    /** walkaddr: the page that user page v maps, or 0. */
    method Walkaddr(root: int, v: int) returns (p: int)
      requires Kernel() && IsRoot(R(), root) && 0 <= v
      modifies this`mem, this`free, this`role
      ensures R() == old(R())
      ensures p == if UserPage(R(), root, v) then Ppn(Pte(R(), root, v)) else 0
      ensures p != 0 <==> UserPage(R(), root, v)
    {
      if v >= VPNS {
        return 0;
      }
      ghost var r := R();
      hide Good, Pte, Node0, Valid, Ppn, User, Steps;
      var q := Walk(root, v, false);
      NoNodeNoPage(r, root, v);
      if q == 0 {
        return 0;
      }
      TableAt(r, q);
      BottomEntry(r, root, q, v);
      var pte := mem[q].ptes[Px(0, v)];
      if !Valid(pte) {
        return 0;
      }
      if !User(pte) {
        return 0;
      }
      UserPpn(r, root, v);
      return Ppn(pte);
    }

    /** Copy src to user address dst.  k bytes are copied: all, or those before the first page that the user
        cannot access. */
    method Copyout(root: int, dst: int, src: seq<int>) returns (ok: bool, ghost k: int)
      requires Kernel() && IsRoot(R(), root) && 0 <= dst
      modifies this`mem, this`free, this`role
      ensures Kernel() && 0 <= k <= |src| && Stored(old(R()), R(), root, dst, src[..k])
      ensures ok <==> k == |src|
      ensures forall a :: dst <= a < dst + k ==> UserPage(old(R()), root, a / PGSIZE)
      ensures !ok ==> !UserPage(old(R()), root, (dst + k) / PGSIZE)
    {
      hide Good, Pte, Valid, Ppn, User, Stored;
      ghost var r := R();
      StoredNone(r, root, dst);
      assert src[..0] == [];
      var done := 0;
      k := 0;
      while done < |src|
        invariant 0 <= done <= |src| && k == done && Kernel() && IsRoot(R(), root)
                  && Stored(r, R(), root, dst, src[..done])
        invariant forall a :: dst <= a < dst + done ==> UserPage(r, root, a / PGSIZE)
        invariant 0 < done < |src| ==> (dst + done) % PGSIZE == 0
      {
        var va := dst + done;
        var w := va / PGSIZE;
        var p := Walkaddr(root, w);
        StoredUser(r, R(), root, dst, src[..done], w);
        if p == 0 {
          ok := false;
          return;
        }
        var off := va % PGSIZE;
        var n := PGSIZE - off;
        if n > |src| - done {
          n := |src| - done;
        }
        ghost var r1 := R();
        var part := src[done..done + n];
        PokeStored(r1, p, off, part, root, w);
        var b := mem[p].bytes;
        mem := mem[p := Bytes(b[..off] + part + b[off + n..])];
        assert R() == Poked(r1, p, off, part);
        StoredMore(r, r1, R(), root, dst, src[..done], part);
        assert src[..done] + part == src[..done + n];
        SamePage(va, n, w);
        done := done + n;
        k := done;
      }
      ok := true;
      assert src[..done] == src;
    }

    /** Copy n bytes from user address srcva. */
    method Copyin(root: int, srcva: int, n: int) returns (ok: bool, dst: seq<int>)
      requires Kernel() && IsRoot(R(), root) && 0 <= srcva && 0 <= n
      modifies this`mem, this`free, this`role
      ensures R() == old(R()) && |dst| <= n
      ensures ok <==> forall a :: srcva <= a < srcva + n ==> UserPage(R(), root, a / PGSIZE)
      ensures ok ==> |dst| == n
      ensures forall i :: 0 <= i < |dst| ==> dst[i] == ByteAt(R(), root, srcva + i)
    {
      hide Good, Pte, Valid, Ppn, User;
      ghost var r := R();
      dst := [];
      while |dst| < n
        invariant |dst| <= n && R() == r && Kernel()
        invariant forall a :: srcva <= a < srcva + |dst| ==> UserPage(r, root, a / PGSIZE)
        invariant forall i :: 0 <= i < |dst| ==> dst[i] == ByteAt(r, root, srcva + i)
        decreases n - |dst|
      {
        var va := srcva + |dst|;
        var w := va / PGSIZE;
        var p := Walkaddr(root, w);
        if p == 0 {
          assert !UserPage(r, root, va / PGSIZE);
          ok := false;
          return;
        }
        var off := va % PGSIZE;
        var m := PGSIZE - off;
        if m > n - |dst| {
          m := n - |dst|;
        }
        UserBytes(r, root, w);
        var part := mem[p].bytes[off..off + m];
        SamePage(va, m, w);
        PartBytes(r, root, va, m, part);
        dst := dst + part;
      }
      ok := true;
    }

    /** What copyout stored, copyin fetches. */
    method CopyRoundTrip(root: int, va: int, src: seq<int>) returns (ok: bool, back: seq<int>)
      requires Kernel() && IsRoot(R(), root) && 0 <= va
      modifies this`mem, this`free, this`role
      ensures Kernel() && (ok ==> back == src)
      ensures ok <==> forall a :: va <= a < va + |src| ==> UserPage(old(R()), root, a / PGSIZE)
    {
      hide Good, Pte, Valid, Ppn, User, Stored, ByteAt, UserPage;
      ghost var r, k := R(), 0;
      back := [];
      ok, k := Copyout(root, va, src);
      if !ok {
        return;
      }
      assert src[..k] == src;
      StoredUser(r, R(), root, va, src, 0);
      forall a | va <= a < va + |src| ensures UserPage(R(), root, a / PGSIZE) {
        StoredUser(r, R(), root, va, src, a / PGSIZE);
      }
      ok, back := Copyin(root, va, |src|);
      forall i | 0 <= i < |src| ensures back[i] == src[i] {
        StoredByte(r, R(), root, va, src, i);
      }
    }

    // ----- uvmcopy

    /** Copy the first sz bytes of the parent's memory, page by page, or fail for lack of memory and leave
        nothing mapped. */
    method Uvmcopy(from: int, to: int, sz: int) returns (ok: bool)
      requires Kernel() && from != to && 0 <= sz && Pages(sz) <= USER && Image(R(), from, Pages(sz))
               && Image(R(), to, 0)
      modifies this`mem, this`free, this`role
      ensures Kernel() && AllSame(old(R()), R(), from) && IsRoot(R(), from)
      ensures ok ==> CopyDone(old(R()), R(), from, to, Pages(sz))
      ensures !ok ==> Steps(old(R()), R(), to) && |old(free)| <= 3 * Pages(sz)
    {
      hide Good, Pte, Valid, Ppn, Flags, IsLeaf, Make, Image, CopyDone, Steps, UnmapDone, Others, OtherSame, AllSame;
      ghost var r := R();
      CopyNone(r, from, to);
      ImageRoot(r, from, Pages(sz));
      var i := 0;
      while i * PGSIZE < sz
        invariant 0 <= i <= Pages(sz) && Kernel() && CopyDone(r, R(), from, to, i) && |r.free| <= |free| + 3 * i
        decreases sz - i * PGSIZE
      {
        ghost var r1 := R();
        CopyParts(r, r1, from, to, i);
        MappedIn(r, from, i, Pages(sz));
        ParentSame(r, r1, to, from);
        ParentPage(r, r1, from, i);
        SomeNode(r1, from, i);
        var q := Walk(from, i, false);
        TableAt(r1, q);
        BottomEntry(r1, from, q, i);
        var pte := mem[q].ptes[Px(0, i)];
        FlagsParts(pte);
        ok := AllocAt(to, i, mem[Ppn(pte)], Flags(pte));
        if !ok {
          ghost var r2 := R();
          StepsImage(r1, r2, to, i);
          ImageRoot(r2, to, i);
          UndoRange(r2, to, 0, i);
          Uvmunmap(to, 0, i, true);
          CopyUndo(r, r1, r2, R(), from, to, i);
          StepsOthers(r, R(), to);
          ParentSame(r, R(), to, from);
          return;
        }
        CopyMore(r, r1, R(), from, to, i, r1.free[0]);
        i := i + 1;
      }
      CopyParts(r, R(), from, to, i);
      ParentSame(r, R(), to, from);
      ok := true;
    }
  }
}
