/**
 * What the operations of kernel/vm.c do to physical memory, one step at a time: which translations, which
 * user bytes and which pages a step changes, and how steps add up.
 */
module PageSteps {
  import opened PageRam

  const KERNBASE: int := 0x8_0000          // page numbers
  const PHYSTOP: int := 0x8_8000

  /** Entry v of root and, for a user page, the bytes it maps, are the same in r and r'. */
  ghost predicate Same(r: Ram, r': Ram, root: int, v: int) {
    && Pte(r', root, v) == Pte(r, root, v)
    && (v < USER && Valid(Pte(r, root, v)) && Ppn(Pte(r, root, v)) in r.mem ==>
          Ppn(Pte(r, root, v)) in r'.mem && r'.mem[Ppn(Pte(r, root, v))] == r.mem[Ppn(Pte(r, root, v))])
  }

  ghost predicate AllSame(r: Ram, r': Ram, root: int) {
    forall v :: 0 <= v < VPNS ==> Same(r, r', root, v)
  }

  ghost predicate OtherSame(r: Ram, r': Ram, root: int, lo: int, hi: int) {
    forall v :: 0 <= v < VPNS && !(lo <= v < hi) ==> Same(r, r', root, v)
  }

  /** From r to r' no page changed hands but free pages and tables of root, and nothing root maps changed. */
  ghost predicate Steps(r: Ram, r': Ram, root: int) {
    IsRoot(r, root) && IsRoot(r', root) && Others(r, r', root, {}) && AllSame(r, r', root)
  }

  lemma StepsSelf(r: Ram, root: int)
    requires Good(r) && IsRoot(r, root)
    ensures Steps(r, r, root)
  {
  }

  lemma StepsMore(r: Ram, r1: Ram, r2: Ram, root: int)
    requires Good(r) && Good(r1) && Steps(r, r1, root) && Steps(r1, r2, root)
    ensures Steps(r, r2, root)
  {
    OthersMore(r, r1, r2, root, {});
    forall v | 0 <= v < VPNS ensures Same(r, r2, root, v) {
      SameMore(r, r1, r2, root, v);
    }
  }

  lemma SameMore(r: Ram, r1: Ram, r2: Ram, root: int, v: int)
    requires Same(r, r1, root, v) && Same(r1, r2, root, v)
    ensures Same(r, r2, root, v)
  {
  }

  // ----- kalloc.c

  lemma FirstFree(r: Ram, p: int)
    requires Good(r) && p !in r.role && 0 < p && forall q :: q in r.role ==> r.role[q] == Free
    ensures Good(Released(r, p))
  {
    var r' := Released(r, p);
    forall q ensures q in r'.free <==> q in r'.role && r'.role[q] == Free {
      assert q in r'.free <==> q == p || q in r.free;
    }
  }

  // ----- walk

  lemma ChildOf(r: Ram, p: int, i: int)
    requires Good(r) && p in r.role && r.role[p].Node? && r.role[p].level > 0 && 0 <= i < 512 && Valid(Entry(r, p, i))
    ensures var n := r.role[p]; IsNode(r, Ppn(Entry(r, p, i)), n.root, n.level - 1, n.x * 512 + i)
  {
    assert Linked(r, map[], p, r.role[p], i, Entry(r, p, i));
  }

  lemma GrowSteps(r: Ram, q: int, i: int, p: int)
    requires Good(r) && q in r.role && r.role[q].Node? && r.role[q].level > 0 && 0 <= i < 512
    requires |r.free| > 0 && p == r.free[0] && !Valid(Entry(r, q, i))
             && InTree(r.role[q].level - 1, r.role[q].x * 512 + i)
    ensures p in r.role && q in Taken(r).mem && Taken(r).mem[q] == r.mem[q]
    ensures Steps(r, Attached(Taken(r), q, i, p), r.role[q].root)
  {
    var root := r.role[q].root;
    assert Hung(r, q, r.role[q]);
    TakenSame(r, root);
    var r1 := Taken(r);
    assert Entry(r1, q, i) == Entry(r, q, i);
    AttachedSame(r1, q, i, p);
    var r2 := Attached(r1, q, i, p);
    assert Others(r, r2, root, {});
    forall v | 0 <= v < VPNS ensures Same(r, r2, root, v) {
      SameMore(r, r1, r2, root, v);
    }
  }

  lemma TableAt(r: Ram, p: int)
    requires Good(r) && p in r.role && r.role[p].Node?
    ensures p in r.mem && r.mem[p].Table? && |r.mem[p].ptes| == 512 && IsRoot(r, r.role[p].root)
  {
    assert Hung(r, p, r.role[p]);
  }

  lemma IndexOf(level: int, v: int)
    requires 1 <= level <= 2 && 0 <= v < VPNS
    ensures level == 2 ==> Px(2, v) == v / 0x4_0000 < 256
    ensures level == 1 ==> v / 0x4_0000 * 512 + Px(1, v) == v / 512
  {
  }

  lemma TakenSame(r: Ram, root: int)
    requires Good(r) && |r.free| > 0 && IsRoot(r, root)
    ensures Good(Taken(r)) && IsRoot(Taken(r), root) && AllSame(r, Taken(r), root)
    ensures r.free[0] in r.role && r.role[r.free[0]] == Free
  {
    TakenSound(r, map[]);
    var r' := Taken(r);
    forall v | 0 <= v < VPNS ensures Same(r, r', root, v) {
      PteSame(r, r', root, v);
      if v < USER && Valid(Pte(r, root, v)) {
        MappedLeaf(r, root, v);
      }
    }
  }

  lemma AttachedSame(r: Ram, q: int, i: int, p: int)
    requires Good(r) && q in r.role && r.role[q].Node? && r.role[q].level > 0 && 0 <= i < 512
    requires !Valid(Entry(r, q, i)) && p in r.role && r.role[p] == Held
             && InTree(r.role[q].level - 1, r.role[q].x * 512 + i)
    ensures var r' := Attached(r, q, i, p);
            && Good(r') && IsRoot(r, r.role[q].root) && IsRoot(r', r.role[q].root) && AllSame(r, r', r.role[q].root)
  {
    assert Hung(r, q, r.role[q]);
    var root := r.role[q].root;
    AttachedGood(r, q, i, p);
    var r' := Attached(r, q, i, p);
    forall v | 0 <= v < VPNS ensures Same(r, r', root, v) {
      PteAttached(r, q, i, p, root, v);
      if v < USER && Valid(Pte(r, root, v)) {
        MappedLeaf(r, root, v);
      }
    }
  }

  lemma NoNode(r: Ram, root: int, v: int, level: int)
    requires level == 2 ==> !Valid(Entry(r, root, Px(2, v)))
    requires level != 2 ==> level == 1 && !Valid(Entry(r, Node1(r, root, v), Px(1, v)))
    ensures Node0(r, root, v) == 0
  {
  }

  lemma LevelOne(r: Ram, root: int, c: int, v: int)
    requires Good(r) && IsNode(r, c, root, 1, v / 0x4_0000) && 0 <= v < VPNS
    ensures Node1(r, root, v) == c
  {
    assert Hung(r, c, r.role[c]);
    assert Hung(r, r.role[c].up, r.role[r.role[c].up]);
    MakeParts(c, PTE_V);
    IndexOf(2, v);
  }

  // ----- mappages

  /** What mapping page v of root with entry e does, in one step. */
  ghost predicate MapDone(r: Ram, r': Ram, root: int, v: int, e: int) {
    && IsRoot(r, root) && IsRoot(r', root) && Pte(r', root, v) == e && OtherSame(r, r', root, v, v + 1)
    && Others(r, r', root, if v < USER then {Ppn(e)} else {})
    && (v < USER ==> Ppn(e) in r.mem && Ppn(e) in r'.mem && r'.mem[Ppn(e)] == r.mem[Ppn(e)])
  }

  /** The effect of one changed bottom entry on what root maps. */
  lemma EntrySame(r: Ram, r': Ram, q: int, i: int, v: int)
    requires Good(r) && q in r.role && r.role[q].Node? && r.role[q].level == 0 && 0 <= i < 512 && 0 <= v < VPNS
    requires forall t, j {:trigger Entry(r', t, j)} :: t != q || j != i ==> Entry(r', t, j) == Entry(r, t, j)
    requires forall t ::
               t in r.role && r.role[t].Leaf? && (r.role[t].up != q || r.role[t].v != r.role[q].x * 512 + i) ==>
               t in r.mem && t in r'.mem && r'.mem[t] == r.mem[t]
    ensures v == r.role[q].x * 512 + i ==> Pte(r', r.role[q].root, v) == Norm(Entry(r', q, i))
    ensures v != r.role[q].x * 512 + i ==> Same(r, r', r.role[q].root, v)
  {
    TableAt(r, q);
    var root := r.role[q].root;
    PteSet(r, r', q, i, root, v);
    if v < USER && Valid(Pte(r, root, v)) {
      MappedLeaf(r, root, v);
    }
  }

  lemma MapSteps(r: Ram, q: int, i: int, e: int)
    requires Good(r) && Mappable(r, q, i, e) && r.role[q].x * 512 + i < VPNS
    ensures Good(Mapped(r, q, i, e)) && MapDone(r, Mapped(r, q, i, e), r.role[q].root, r.role[q].x * 512 + i, e)
  {
    TableAt(r, q);
    assert Hung(r, q, r.role[q]);
    MappedGood(r, q, i, e);
    MappedNew(r, q, i, e);
    var root, v, r' := r.role[q].root, r.role[q].x * 512 + i, Mapped(r, q, i, e);
    hide Down, Up, FreeOk, Pte, Valid, Ppn, IsLeaf, User, Linked, Hung, Entry, Same;
    forall v' | 0 <= v' < VPNS ensures v' == v ==> Pte(r', root, v') == e
                               ensures v' != v ==> Same(r, r', root, v') {
      EntrySame(r, r', q, i, v');
    }
  }

  lemma MapAfterSteps(r: Ram, r1: Ram, r2: Ram, root: int, v: int, e: int)
    requires Good(r) && Good(r1) && Steps(r, r1, root) && MapDone(r1, r2, root, v, e) && 0 <= v < VPNS
    requires v < USER ==> Ppn(e) in r.role && r.role[Ppn(e)] == Held
    ensures MapDone(r, r2, root, v, e)
  {
    hide Pte, Valid, Ppn;
    assert Others(r, r1, root, if v < USER then {Ppn(e)} else {});
    OthersMore(r, r1, r2, root, if v < USER then {Ppn(e)} else {});
    forall v' | 0 <= v' < VPNS && v' != v ensures Same(r, r2, root, v') {
      assert Same(r, r1, root, v') && Same(r1, r2, root, v');
      SameMore(r, r1, r2, root, v');
    }
  }

  function WithV(perm: int): int { if perm % 2 == 1 then perm else perm + 1 }

  /** A leaf's permission bits as mappages takes them: a user page is held and becomes the table's; a page at
      or above the trapframe is not the table's, and not for users. */
  ghost predicate Fit(r: Ram, v: int, p: int, perm: int) {
    && 0 <= perm < 1024 && perm / 2 % 8 != 0 && 0 <= v < VPNS
    && (v < USER ==> p in r.role && r.role[p] == Held) && (v >= USER ==> perm / 16 % 2 == 0)
  }

  lemma WithVParts(p: int, perm: int)
    requires 0 <= perm < 1024
    ensures var e := Make(p, WithV(perm));
            && Valid(e) && Ppn(e) == p && (IsLeaf(e) <==> perm / 2 % 8 != 0) && (User(e) <==> perm / 16 % 2 == 1)
  {
    MakeParts(p, WithV(perm));
    assert WithV(perm) / 2 == perm / 2;
    assert WithV(perm) / 16 == perm / 16;
  }

  lemma HeldKept(r: Ram, r1: Ram, root: int, v: int, p: int)
    requires Good(r) && Steps(r, r1, root) && 0 <= v < VPNS && (v < USER ==> p in r.role && r.role[p] == Held)
    ensures v < USER ==> p in r1.role && r1.role[p] == Held
    ensures Pte(r1, root, v) == Pte(r, root, v)
  {
    assert Same(r, r1, root, v);
  }

  lemma BottomEntry(r: Ram, root: int, q: int, v: int)
    requires q != 0 && q == Node0(r, root, v) && 0 <= v < VPNS
    ensures Pte(r, root, v) == Norm(Entry(r, q, Px(0, v))) && (Valid(Pte(r, root, v)) <==> Valid(Entry(r, q, Px(0, v))))
            && v == v / 512 * 512 + Px(0, v)
  {
  }

  /** The pages that mapping n pages from pa on at a hands to the table. */
  ghost function Own(a: int, pa: int, n: int): set<int> {
    set t | pa <= t < pa + n && ForUser(a, pa, t)
  }

  ghost predicate ForUser(a: int, pa: int, t: int) { a + (t - pa) < USER }

  /** Pages a .. a + n of root now map the pages from pa on, which keep their bytes; nothing else changed. */
  ghost predicate MapRange(r: Ram, r': Ram, root: int, a: int, pa: int, n: int, perm: int) {
    && IsRoot(r, root) && IsRoot(r', root)
    && PtesSet(r', root, a, pa, n, perm) && BytesKept(r, r', Own(a, pa, n))
    && OtherSame(r, r', root, a, a + n) && Others(r, r', root, Own(a, pa, n))
  }

  ghost predicate PtesSet(r: Ram, root: int, a: int, pa: int, n: int, perm: int) {
    forall v :: a <= v < a + n ==> Pte(r, root, v) == Make(pa + (v - a), WithV(perm))
  }

  ghost predicate BytesKept(r: Ram, r': Ram, own: set<int>) {
    forall t :: t in own ==> t in r.mem && t in r'.mem && r'.mem[t] == r.mem[t]
  }

  lemma OwnMore(a: int, pa: int, n: int)
    requires 0 <= n
    ensures Own(a, pa, n + 1) == Own(a, pa, n) + if a + n < USER then {pa + n} else {}
  {
  }

  lemma OthersJoin(r: Ram, r1: Ram, r2: Ram, root: int, own: set<int>, own1: set<int>, own2: set<int>)
    requires Others(r, r1, root, own1) && Others(r1, r2, root, own2) && own == own1 + own2
    ensures Others(r, r2, root, own)
  {
  }

  lemma OtherSameJoin(r: Ram, r1: Ram, r2: Ram, root: int, lo: int, mid: int, hi: int)
    requires OtherSame(r, r1, root, lo, mid) && OtherSame(r1, r2, root, mid, hi) && lo <= mid <= hi
    ensures OtherSame(r, r2, root, lo, hi)
  {
    forall v | 0 <= v < VPNS && !(lo <= v < hi) ensures Same(r, r2, root, v) {
      SameMore(r, r1, r2, root, v);
    }
  }

  lemma PtesSetMore(r: Ram, r': Ram, root: int, a: int, pa: int, n: int, perm: int)
    requires PtesSet(r, root, a, pa, n, perm) && OtherSame(r, r', root, a + n, a + n + 1) && 0 <= a && 0 <= n
             && a + n < VPNS
    requires Pte(r', root, a + n) == Make(pa + n, WithV(perm))
    ensures PtesSet(r', root, a, pa, n + 1, perm)
  {
    hide Pte, Make;
    forall v | a <= v < a + n + 1 ensures Pte(r', root, v) == Make(pa + (v - a), WithV(perm)) {
      if v < a + n {
        assert Same(r, r', root, v);
        assert Pte(r, root, v) == Make(pa + (v - a), WithV(perm));
      }
    }
  }

  lemma BytesKeptMore(r: Ram, r1: Ram, r2: Ram, root: int, a: int, pa: int, n: int, perm: int)
    requires Good(r1) && IsRoot(r1, root) && PtesSet(r1, root, a, pa, n, perm) && BytesKept(r, r1, Own(a, pa, n))
    requires 0 <= a && 0 <= n && a + n <= VPNS && 0 <= perm < 1024 && OtherSame(r1, r2, root, a + n, a + n + 1)
    ensures BytesKept(r, r2, Own(a, pa, n))
  {
    forall t | t in Own(a, pa, n) ensures t in r.mem && t in r2.mem && r2.mem[t] == r.mem[t] {
      var v := a + (t - pa);
      assert Pte(r1, root, v) == Make(t, WithV(perm));
      WithVParts(t, perm);
      MappedLeaf(r1, root, v);
      assert Same(r1, r2, root, v);
    }
  }

  lemma MapRangeMore(r: Ram, r1: Ram, r2: Ram, root: int, a: int, pa: int, n: int, perm: int)
    requires Good(r) && Good(r1) && MapRange(r, r1, root, a, pa, n, perm) && 0 <= a && 0 <= n && a + n < VPNS
             && 0 <= perm < 1024
    requires MapDone(r1, r2, root, a + n, Make(pa + n, WithV(perm))) 
    requires a + n < USER ==> pa + n in r.mem && pa + n in r1.mem && r1.mem[pa + n] == r.mem[pa + n]
    ensures MapRange(r, r2, root, a, pa, n + 1, perm)
  {
    hide Good, Pte, Valid, Ppn, Make, WithV, Own, Others, OtherSame, PtesSet, IsNode;
    WithVParts(pa + n, perm);
    OwnMore(a, pa, n);
    OthersJoin(r, r1, r2, root, Own(a, pa, n + 1), Own(a, pa, n), if a + n < USER then {pa + n} else {});
    OtherSameJoin(r, r1, r2, root, a, a + n, a + n + 1);
    PtesSetMore(r1, r2, root, a, pa, n, perm);
    BytesKeptMore(r, r1, r2, root, a, pa, n, perm);
  }

  lemma SamePte(r: Ram, r': Ram, root: int, v: int)
    requires Same(r, r', root, v)
    ensures Pte(r', root, v) == Pte(r, root, v)
  {
  }

  lemma MapRangeNone(r: Ram, root: int, a: int, pa: int, perm: int)
    requires Good(r) && IsRoot(r, root)
    ensures MapRange(r, r, root, a, pa, 0, perm)
  {
  }

  /** Page v is unmapped and fit to be mapped, when the pages from pa on are to go at a. */
  ghost predicate ReadyAt(r: Ram, root: int, a: int, pa: int, v: int, perm: int) {
    Fit(r, v, pa + (v - a), perm) && !Valid(Pte(r, root, v))
  }

  ghost predicate Ready(r: Ram, root: int, a: int, pa: int, lo: int, hi: int, perm: int) {
    forall v :: lo <= v < hi ==> ReadyAt(r, root, a, pa, v, perm)
  }

  lemma StillReadyAt(r: Ram, r': Ram, root: int, a: int, pa: int, w: int, v: int, perm: int)
    requires ReadyAt(r, root, a, pa, w, perm) && ReadyAt(r, root, a, pa, v, perm) && v != w
    requires MapDone(r, r', root, w, Make(pa + (w - a), WithV(perm)))
    ensures ReadyAt(r', root, a, pa, v, perm)
  {
    WithVParts(pa + (w - a), perm);
    hide Pte, Valid, Make, Ppn;
    assert Same(r, r', root, v);
  }

  lemma StillReady(r: Ram, r': Ram, root: int, a: int, pa: int, lo: int, hi: int, perm: int)
    requires Ready(r, root, a, pa, lo, hi, perm) && lo < hi
             && MapDone(r, r', root, lo, Make(pa + (lo - a), WithV(perm)))
    ensures Ready(r', root, a, pa, lo + 1, hi, perm)
  {
    hide MapDone, ReadyAt, Make;
    forall v | lo + 1 <= v < hi ensures ReadyAt(r', root, a, pa, v, perm) {
      StillReadyAt(r, r', root, a, pa, lo, v, perm);
    }
  }

  lemma RangeFit(r: Ram, root: int, a: int, pa: int, lo: int, hi: int, perm: int)
    requires Ready(r, root, a, pa, lo, hi, perm) && lo < hi
    ensures Fit(r, lo, pa + (lo - a), perm) && !Valid(Pte(r, root, lo))
    ensures 0 <= perm < 1024 && 0 <= lo < VPNS
            && (lo < USER ==> pa + (lo - a) in r.role && r.role[pa + (lo - a)] == Held)
  {
    assert ReadyAt(r, root, a, pa, lo, perm);
  }

  lemma HeldBefore(r: Ram, r1: Ram, root: int, a: int, pa: int, n: int, perm: int)
    requires MapRange(r, r1, root, a, pa, n, perm) && (a + n < USER ==> pa + n in r1.role && r1.role[pa + n] == Held)
    ensures r.mem.Keys == r1.mem.Keys && (a + n < USER ==> pa + n in r.mem && r1.mem[pa + n] == r.mem[pa + n])
  {
  }

  lemma MapRoot(r: Ram, r': Ram, root: int, v: int, e: int)
    requires MapDone(r, r', root, v, e)
    ensures IsRoot(r', root) && r'.role.Keys == r.role.Keys
  {
  }

  lemma MapRangeSteps(r: Ram, r1: Ram, r2: Ram, root: int, a: int, pa: int, n: int, perm: int)
    requires Good(r) && Good(r1) && MapRange(r, r1, root, a, pa, n, perm) && 0 <= a && 0 <= n && a + n <= VPNS
             && 0 <= perm < 1024
    requires Steps(r1, r2, root)
    ensures MapRange(r, r2, root, a, pa, n, perm) && r2.role.Keys == r.role.Keys
  {
    assert OtherSame(r1, r2, root, a + n, a + n + 1) && OtherSame(r1, r2, root, a + n, a + n);
    hide Good, Pte, Valid, Ppn, Make, Own, OtherSame, Same, PtesSet, BytesKept;
    BytesKeptMore(r, r1, r2, root, a, pa, n, perm);
    OthersJoin(r, r1, r2, root, Own(a, pa, n), Own(a, pa, n), {});
    OtherSameJoin(r, r1, r2, root, a, a + n, a + n);
    PtesSetSame(r1, r2, root, a, pa, n, perm);
  }

  lemma PtesSetSame(r: Ram, r': Ram, root: int, a: int, pa: int, n: int, perm: int)
    requires PtesSet(r, root, a, pa, n, perm) && AllSame(r, r', root) && 0 <= a && 0 <= n && a + n <= VPNS
    ensures PtesSet(r', root, a, pa, n, perm)
  {
    hide Pte, Make;
    forall v | a <= v < a + n ensures Pte(r', root, v) == Make(pa + (v - a), WithV(perm)) {
      assert Same(r, r', root, v);
      assert Pte(r, root, v) == Make(pa + (v - a), WithV(perm));
    }
  }

  // ----- uvmunmap

  /** Pages lo .. hi of root are no longer mapped; nothing else changed but that their pages may be free. */
  ghost predicate UnmapDone(r: Ram, r': Ram, root: int, lo: int, hi: int) {
    && IsRoot(r, root) && IsRoot(r', root) && Others(r, r', root, {}) && OtherSame(r, r', root, lo, hi)
    && (forall v :: lo <= v < hi ==> Pte(r', root, v) == 0)
  }

  lemma UnmapMore(r: Ram, r1: Ram, r2: Ram, root: int, lo: int, mid: int, hi: int)
    requires UnmapDone(r, r1, root, lo, mid) && UnmapDone(r1, r2, root, mid, hi) && 0 <= lo <= mid <= hi <= VPNS
    ensures UnmapDone(r, r2, root, lo, hi)
  {
    hide Pte;
    OthersMore(r, r1, r2, root, {});
    OtherSameJoin(r, r1, r2, root, lo, mid, hi);
    forall v | lo <= v < mid ensures Pte(r2, root, v) == 0 {
      assert Same(r1, r2, root, v);
    }
  }

  /** Clearing the entry of a page at or above the trapframe. */
  lemma ClearSteps(r: Ram, q: int, i: int)
    requires Good(r) && q in r.role && r.role[q].Node? && r.role[q].level == 0 && 0 <= i < 512 && Valid(Entry(r, q, i))
    requires USER <= r.role[q].x * 512 + i < VPNS
    ensures var r' := Unmapped(r, q, i);
            && Good(r') && UnmapDone(r, r', r.role[q].root, r.role[q].x * 512 + i, r.role[q].x * 512 + i + 1)
  {
    TableAt(r, q);
    assert Hung(r, q, r.role[q]);
    UnmappedGood(r, q, i);
    EntriesUnmapped(r, q, i);
    var root, v, r' := r.role[q].root, r.role[q].x * 512 + i, Unmapped(r, q, i);
    hide Down, Up, FreeOk, Pte, Valid, Ppn, IsLeaf, User, Linked, Hung, Entry, Same;
    forall v' | 0 <= v' < VPNS ensures v' == v ==> Pte(r', root, v') == 0
                               ensures v' != v ==> Same(r, r', root, v') {
      EntrySame(r, r', q, i, v');
    }
  }

  /** Freeing a user page and then clearing its entry. */
  ghost function Dropped(r: Ram, q: int, i: int): Ram
    requires q in r.mem && r.mem[q].Table? && 0 <= i < |r.mem[q].ptes| && Ppn(r.mem[q].ptes[i]) != q
  {
    SetEntry(Released(r, Ppn(r.mem[q].ptes[i])), q, i, 0)
  }

  lemma DropGood(r: Ram, q: int, i: int)
    requires Good(r) && q in r.role && r.role[q].Node? && r.role[q].level == 0 && 0 <= i < 512 && Valid(Entry(r, q, i))
    requires r.role[q].x * 512 + i < USER
    ensures q in r.mem && r.mem[q].Table? && |r.mem[q].ptes| == 512 && Ppn(r.mem[q].ptes[i]) != q
    ensures Ppn(Entry(r, q, i)) in r.role
            && r.role[Ppn(Entry(r, q, i))] == Leaf(r.role[q].root, r.role[q].x * 512 + i, q)
    ensures Good(Dropped(r, q, i))
  {
    hide *;
    LeafOf(r, q, i);
    UnmappedGood(r, q, i);
    DroppedIs(r, q, i);
    GoodIs(Unmapped(r, q, i));
    ReleasedSound(Unmapped(r, q, i), map[], Ppn(Entry(r, q, i)));
    GoodIs(Dropped(r, q, i));
  }

  lemma GoodIs(r: Ram)
    ensures Good(r) <==> Sound(r, map[])
  {
  }

  /** The page that a bottom entry maps. */
  lemma LeafOf(r: Ram, q: int, i: int)
    requires Good(r) && q in r.role && r.role[q].Node? && r.role[q].level == 0 && 0 <= i < 512 && Valid(Entry(r, q, i))
    requires r.role[q].x * 512 + i < USER
    ensures q in r.mem && r.mem[q].Table? && |r.mem[q].ptes| == 512 && Entry(r, q, i) == r.mem[q].ptes[i]
    ensures var p := Ppn(Entry(r, q, i));
            && p in r.role && r.role[p] == Leaf(r.role[q].root, r.role[q].x * 512 + i, q) && p != q
            && p in r.mem && r.mem[p].Bytes?
  {
    hide Up, FreeOk;
    assert Linked(r, map[], q, r.role[q], i, Entry(r, q, i));
  }

  /** Dropping is unmapping and then releasing the page. */
  lemma DroppedIs(r: Ram, q: int, i: int)
    requires q in r.role && r.role[q].Node? && r.role[q].x * 512 + i < USER && 0 <= i < 512
    requires q in r.mem && r.mem[q].Table? && |r.mem[q].ptes| == 512 && Entry(r, q, i) == r.mem[q].ptes[i]
    requires Ppn(Entry(r, q, i)) in r.role && Ppn(Entry(r, q, i)) != q
    ensures var p := Ppn(Entry(r, q, i));
            && p in Unmapped(r, q, i).role && Unmapped(r, q, i).role[p] == Held
            && Dropped(r, q, i) == Released(Unmapped(r, q, i), p)
  {
    hide Ppn;
  }

  lemma DropSteps(r: Ram, q: int, i: int)
    requires Good(r) && q in r.role && r.role[q].Node? && r.role[q].level == 0 && 0 <= i < 512 && Valid(Entry(r, q, i))
    requires 0 <= r.role[q].x * 512 + i < USER
    ensures q in r.mem && r.mem[q].Table? && |r.mem[q].ptes| == 512 && Ppn(r.mem[q].ptes[i]) != q
    ensures var r' := Dropped(r, q, i);
            UnmapDone(r, r', r.role[q].root, r.role[q].x * 512 + i, r.role[q].x * 512 + i + 1)
  {
    hide *;
    LeafOf(r, q, i);
    DropFrame(r, q, i);
    DropTranslates(r, q, i);
    UnmapIs(r, Dropped(r, q, i), r.role[q].root, r.role[q].x * 512 + i);
  }

  lemma UnmapIs(r: Ram, r': Ram, root: int, v: int)
    requires IsRoot(r, root) && IsRoot(r', root) && Others(r, r', root, {}) && OtherSame(r, r', root, v, v + 1)
    requires Pte(r', root, v) == 0
    ensures UnmapDone(r, r', root, v, v + 1)
  {
    hide Pte, OtherSame, Others, IsNode;
  }

  /** Only the page that was mapped changes hands. */
  lemma DropFrame(r: Ram, q: int, i: int)
    requires Good(r) && q in r.role && r.role[q].Node? && r.role[q].level == 0 && 0 <= i < 512
    requires q in r.mem && r.mem[q].Table? && |r.mem[q].ptes| == 512 && Entry(r, q, i) == r.mem[q].ptes[i]
    requires var p := Ppn(Entry(r, q, i)); p in r.role && r.role[p].Leaf? && r.role[p].root == r.role[q].root && p != q
    ensures var root, r' := r.role[q].root, Dropped(r, q, i);
            IsRoot(r, root) && IsRoot(r', root) && Others(r, r', root, {})
  {
    hide Down, FreeOk, Ppn, Entry;
    assert Hung(r, q, r.role[q]);
  }

  lemma DropTranslates(r: Ram, q: int, i: int)
    requires Good(r) && q in r.role && r.role[q].Node? && r.role[q].level == 0 && 0 <= i < 512
    requires q in r.mem && r.mem[q].Table? && |r.mem[q].ptes| == 512 && Entry(r, q, i) == r.mem[q].ptes[i]
    requires 0 <= r.role[q].x * 512 + i < USER
    requires var p := Ppn(Entry(r, q, i));
             && p in r.role && r.role[p] == Leaf(r.role[q].root, r.role[q].x * 512 + i, q) && p != q
             && p in r.mem && r.mem[p].Bytes?
    ensures var root, v, r' := r.role[q].root, r.role[q].x * 512 + i, Dropped(r, q, i);
            Pte(r', root, v) == 0 && OtherSame(r, r', root, v, v + 1)
  {
    hide Good, Pte, Valid, Ppn, IsLeaf, User, Same, Entry, Released, Dropped;
    var root, v, r' := r.role[q].root, r.role[q].x * 512 + i, Dropped(r, q, i);
    DropEntries(r, q, i);
    DropPages(r, q, i);
    forall v' | 0 <= v' < VPNS ensures v' == v ==> Pte(r', root, v') == 0
                               ensures v' != v ==> Same(r, r', root, v') {
      EntrySame(r, r', q, i, v');
    }
  }

  /** User pages other than the one that was mapped keep their bytes. */
  lemma DropPages(r: Ram, q: int, i: int)
    requires Good(r) && q in r.role && q in r.mem && r.mem[q].Table? && 0 <= i < |r.mem[q].ptes|
    requires Entry(r, q, i) == r.mem[q].ptes[i] && Ppn(Entry(r, q, i)) != q && Ppn(Entry(r, q, i)) in r.role
    requires r.role[q].Node? && r.role[Ppn(Entry(r, q, i))] == Leaf(r.role[q].root, r.role[q].x * 512 + i, q)
    ensures var r' := Dropped(r, q, i);
            forall t ::
              t in r.role && r.role[t].Leaf? && (r.role[t].up != q || r.role[t].v != r.role[q].x * 512 + i) ==>
              t in r.mem && t in r'.mem && r'.mem[t] == r.mem[t]
  {
    hide Down, Up, FreeOk, Ppn, Entry;
  }

  lemma DropEntries(r: Ram, q: int, i: int)
    requires Good(r) && q in r.role && r.role[q].Node? && r.role[q].level == 0 && 0 <= i < 512
    requires q in r.mem && r.mem[q].Table? && 0 <= i < |r.mem[q].ptes| && Ppn(r.mem[q].ptes[i]) != q
    requires Ppn(Entry(r, q, i)) in r.role && r.role[Ppn(Entry(r, q, i))].Leaf?
    ensures var r' := Dropped(r, q, i);
            && Entry(r', q, i) == 0
            && (forall t, j {:trigger Entry(r', t, j)} :: t != q || j != i ==> Entry(r', t, j) == Entry(r, t, j))
  {
    hide Down, Up, FreeOk, Ppn;
    var p := Ppn(r.mem[q].ptes[i]);
    assert r.mem[p].Bytes?;
  }

  lemma SomeNode(r: Ram, root: int, v: int)
    requires Valid(Pte(r, root, v))
    ensures Node0(r, root, v) != 0
  {
  }

  lemma UnmapNone(r: Ram, root: int, lo: int)
    requires Good(r) && IsRoot(r, root)
    ensures UnmapDone(r, r, root, lo, lo)
  {
  }

  lemma StillMapped(r: Ram, r': Ram, root: int, v: int, hi: int)
    requires UnmapDone(r, r', root, v, v + 1) && 0 <= v && hi <= VPNS && forall w :: v <= w < hi ==>
               Valid(Pte(r, root, w))
    ensures IsRoot(r', root) && forall w :: v + 1 <= w < hi ==> Valid(Pte(r', root, w))
  {
    hide Pte, Valid;
    forall w | v + 1 <= w < hi ensures Valid(Pte(r', root, w)) {
      assert Same(r, r', root, w);
    }
  }

  // ----- freewalk

  /** The prefix d levels up. */
  ghost function Above(x: int, d: int): int {
    if d == 0 then x else if d == 1 then x / 512 else x / 512 / 512
  }

  /** t lies in the subtree of n below one of its first i entries. */
  ghost predicate Below(t: Role, n: Role, i: int)
    requires n.Node?
  {
    t.Node? && t.root == n.root && t.level < n.level && n.x * 512 <= Above(t.x, n.level - 1 - t.level) < n.x * 512 + i
  }

  ghost predicate Under(t: Role, n: Role)
    requires n.Node?
  {
    t.Node? && t.root == n.root
      && ((t.level == n.level && t.x == n.x) || (t.level < n.level && Above(t.x, n.level - t.level) == n.x))
  }

  lemma UnderBelow(t: Role, n: Role)
    requires n.Node? && InTree(n.level, n.x) && t.Node? && InTree(t.level, t.x)
    ensures Under(t, n) <==> (t.root == n.root && t.level == n.level && t.x == n.x) || Below(t, n, 512)
    ensures !Below(t, n, 0)
  {
  }

  /** Where entry i of p is invalid nothing hangs below it. */
  lemma NothingBelow(r: Ram, p: int, i: int, t: int)
    requires Good(r) && p in r.role && r.role[p].Node? && 0 <= i < 512 && !Valid(Entry(r, p, i)) && t in r.role
    ensures Below(r.role[t], r.role[p], i + 1) ==> Below(r.role[t], r.role[p], i)
    decreases if r.role[t].Node? then 2 - r.role[t].level else 0
  {
    var n := r.role[p];
    assert Hung(r, t, r.role[t]) && Hung(r, p, n);
    if Below(r.role[t], n, i + 1) && !Below(r.role[t], n, i) {
      var up := r.role[t].up;
      assert Hung(r, up, r.role[up]);
      if r.role[t].level == n.level - 1 {
        NodeUnique(r, up, p);
        MakeParts(t, PTE_V);
      } else {
        NothingBelow(r, p, i, up);
      }
    }
  }

  /** The pages of n's subtree below its first i entries are free; everything else is as it was. */
  ghost predicate FreedBelow(r: Ram, r': Ram, p: int, i: int)
    requires p in r.role && r.role[p].Node?
  {
    && r'.role.Keys == r.role.Keys && r.mem.Keys == r.role.Keys && r'.mem.Keys == r.role.Keys && r'.role[p] == r.role[p]
    && (forall t :: t in r.role && Below(r.role[t], r.role[p], i) ==> r'.role[t] == Free)
    && (forall t :: t in r.role && t != p && !Below(r.role[t], r.role[p], i) ==>
          r'.role[t] == r.role[t] && r'.mem[t] == r.mem[t])
    && (forall j :: 0 <= j < i ==> !Valid(Entry(r', p, j)))
    && (forall j :: i <= j < 512 ==> Entry(r', p, j) == Entry(r, p, j))
  }

  ghost predicate FreedUnder(r: Ram, r': Ram, n: Role)
    requires n.Node?
  {
    && r'.role.Keys == r.role.Keys && r.mem.Keys == r.role.Keys && r'.mem.Keys == r.role.Keys
    && (forall t :: t in r.role && Under(r.role[t], n) ==> r'.role[t] == Free)
    && (forall t :: t in r.role && !Under(r.role[t], n) ==> r'.role[t] == r.role[t] && r'.mem[t] == r.mem[t])
  }

  /** No bottom table in n's subtree has a valid entry. */
  ghost predicate LeafFree(r: Ram, n: Role)
    requires n.Node?
  {
    forall t, i {:trigger Entry(r, t, i)} ::
      t in r.role && Under(r.role[t], n) && r.role[t].level == 0 && 0 <= i < 512 ==> !Valid(Entry(r, t, i))
  }

  lemma NoneFreed(r: Ram, p: int)
    requires Good(r) && p in r.role && r.role[p].Node?
    ensures FreedBelow(r, r, p, 0)
  {
    forall t | t in r.role ensures !Below(r.role[t], r.role[p], 0) {
    }
  }

  lemma FreedBelowSkip(r: Ram, r': Ram, p: int, i: int)
    requires Good(r) && p in r.role && r.role[p].Node? && 0 <= i < 512 && FreedBelow(r, r', p, i)
             && !Valid(Entry(r', p, i))
    ensures FreedBelow(r, r', p, i + 1)
  {
    hide Good, Valid, Below;
    forall t | t in r.role ensures Below(r.role[t], r.role[p], i + 1) <==> Below(r.role[t], r.role[p], i) {
      NothingBelow(r, p, i, t);
      BelowMore(r.role[t], r.role[p], i);
    }
  }

  lemma BelowMore(t: Role, n: Role, i: int)
    requires n.Node?
    ensures Below(t, n, i) ==> Below(t, n, i + 1)
  {
  }

  /** The i-th child's subtree is what lies below entry i. */
  lemma BelowChild(t: Role, n: Role, i: int, up: int)
    requires n.Node? && 0 <= i < 512
    ensures Below(t, n, i + 1) <==> Below(t, n, i) || Under(t, Node(n.root, n.level - 1, n.x * 512 + i, up))
  {
  }

  lemma ChildReady(r: Ram, r1: Ram, p: int, i: int)
    requires Good(r) && Good(r1) && p in r.role && r.role[p].Node? && 0 <= i < 512 && FreedBelow(r, r1, p, i)
    requires LeafFree(r, r.role[p]) && Valid(Entry(r1, p, i))
    ensures r.role[p].level > 0
    ensures var n, c := r.role[p], Ppn(Entry(r1, p, i));
            && c in r1.role && c != p && r1.role[c] == Node(n.root, n.level - 1, n.x * 512 + i, p)
            && Entry(r1, p, i) == Make(c, PTE_V) && !IsLeaf(Entry(r1, p, i)) && LeafFree(r1, r1.role[c])
  {
    var n := r.role[p];
    assert Under(n, n);
    assert Entry(r1, p, i) == Entry(r, p, i);
    assert n.level > 0;
    var e := Entry(r1, p, i);
    var c := Ppn(e);
    assert Linked(r1, map[], p, n, i, e);
    MakeFlags(e);
    hide Good, Valid, Make, Ppn, IsLeaf;
    forall t, j | t in r1.role && Under(r1.role[t], r1.role[c]) && r1.role[t].level == 0 && 0 <= j < 512
      ensures !Valid(Entry(r1, t, j))
    {
      LevelOk(r1, t);
      LevelOk(r, p);
      ChildUnder(r, r1, p, i, c, t);
      assert Entry(r1, t, j) == Entry(r, t, j);
    }
  }

  lemma MakeFlags(e: int)
    requires Flags(e) == PTE_V
    ensures e == Make(Ppn(e), PTE_V) && !IsLeaf(e)
  {
    MakeParts(Ppn(e), PTE_V);
  }

  /** A page under the i-th child is one of n's, and is as it was. */
  lemma ChildUnder(r: Ram, r1: Ram, p: int, i: int, c: int, t: int)
    requires p in r.role && r.role[p].Node? && 0 <= i < 512 && FreedBelow(r, r1, p, i) && r.role[p].level > 0
    requires c in r1.role && r1.role[c] == Node(r.role[p].root, r.role[p].level - 1, r.role[p].x * 512 + i, p)
    requires t in r1.role && Under(r1.role[t], r1.role[c]) && 0 <= r1.role[t].level && r.role[p].level <= 2
    ensures t != p && r1.role[t] == r.role[t] && r1.mem[t] == r.mem[t] && Under(r.role[t], r.role[p])
  {
    hide Valid;
    assert t != p;
    assert r1.role[t] == r.role[t];
    var n, x, d := r.role[p], r.role[t].x, r.role[p].level - 1 - r.role[t].level;
    assert Above(x, d) == n.x * 512 + i && d <= 1;
    assert Above(x, d + 1) == Above(x, d) / 512;
  }

  lemma FreedBelowStep(r: Ram, r1: Ram, r2: Ram, p: int, i: int, c: int)
    requires p in r.role && r.role[p].Node? && 0 <= i < 512 && FreedBelow(r, r1, p, i) && r.role[p].level > 0
    requires c in r1.role && c != p && r1.role[c] == Node(r.role[p].root, r.role[p].level - 1, r.role[p].x * 512 + i, p)
    requires FreedUnder(r1, r2, r1.role[c]) && r1.mem[p].Table? && |r1.mem[p].ptes| == 512
    ensures p in r2.mem && r2.mem[p] == r1.mem[p] && c in r2.role && r2.role[c] == Free && r2.role[p] == r1.role[p]
    ensures FreedBelow(r, SetEntry(r2, p, i, 0), p, i + 1)
  {
    assert !Under(r1.role[p], r1.role[c]) && Under(r1.role[c], r1.role[c]);
    EntriesSet(r2, p, i, 0);
    ZeroInvalid();
    forall j ensures Entry(r2, p, j) == Entry(r1, p, j) {
    }
    hide Valid, Under, Below, Entry;
    forall t | t in r.role
      ensures Below(r.role[t], r.role[p], i + 1) <==> Below(r.role[t], r.role[p], i) || Under(r.role[t], r1.role[c])
    {
      BelowChild(r.role[t], r.role[p], i, p);
    }
    FreeNotUnder(r1.role[c]);
  }

  lemma FreeNotUnder(n: Role)
    requires n.Node?
    ensures !Under(Free, n)
  {
  }

  lemma AllGone(r: Ram, r1: Ram, p: int)
    requires Good(r) && Good(r1) && p in r.role && r.role[p].Node? && FreedBelow(r, r1, p, 512)
    requires r.role[p].level == 2
    ensures forall t :: t in r1.role && t != p && !Idle(r1.role[t]) ==> RootOf(r1.role[t]) != p
  {
    assert Hung(r, p, r.role[p]);
    forall t | t in r1.role && t != p && !Idle(r1.role[t]) ensures RootOf(r1.role[t]) != p {
      assert Hung(r1, t, r1.role[t]);
      if r1.role[t].Node? {
        assert Hung(r, t, r.role[t]);
        UnderBelow(r1.role[t], r.role[p]);
      } else {
        var up := r1.role[t].up;
        assert Hung(r1, up, r1.role[up]);
        UnderBelow(r1.role[up], r.role[p]);
      }
    }
  }

  lemma FreedAll(r: Ram, r1: Ram, p: int)
    requires Good(r) && p in r.role && r.role[p].Node? && FreedBelow(r, r1, p, 512)
    ensures FreedUnder(r, Released(r1, p), r.role[p])
  {
    var n := r.role[p];
    forall t | t in r.role ensures t != p ==> (Under(r.role[t], n) <==> Below(r.role[t], n, 512)) {
      if r.role[t].Node? {
        assert Hung(r, t, r.role[t]) && Hung(r, p, n);
        UnderBelow(r.role[t], n);
        if t != p && r.role[t].root == n.root && r.role[t].level == n.level && r.role[t].x == n.x {
          NodeUnique(r, t, p);
        }
      }
    }
    assert Under(n, n);
  }

  lemma LevelOk(r: Ram, p: int)
    requires Good(r) && p in r.role && r.role[p].Node?
    ensures 0 <= r.role[p].level <= 2
  {
    assert Hung(r, p, r.role[p]);
  }

  lemma Cut(r: Ram, r1: Ram, r2: Ram, p: int, i: int, c: int)
    requires p in r.role && r.role[p].Node? && 0 <= i < 512 && FreedBelow(r, r1, p, i) && r.role[p].level > 0
    requires c in r1.role && c != p && r1.role[c] == Node(r.role[p].root, r.role[p].level - 1, r.role[p].x * 512 + i, p)
    requires FreedUnder(r1, r2, r1.role[c]) && p in r1.mem && r1.mem[p].Table? && |r1.mem[p].ptes| == 512
    requires Entry(r1, p, i) == Make(c, PTE_V) && Sound(r2, LinkOf(c, r1.role[c])) && r.role[p].level <= 2
    ensures p in r2.mem && r2.mem[p].Table? && |r2.mem[p].ptes| == 512 && p in r2.role && r2.role[p] == r.role[p]
    ensures Good(SetEntry(r2, p, i, 0)) && FreedBelow(r, SetEntry(r2, p, i, 0), p, i + 1)
  {
    hide Sound, Make;
    FreedBelowStep(r, r1, r2, p, i, c);
    assert (r.role[p].x * 512 + i) % 512 == i;
    assert r1.role[p] == r.role[p];
    CutGood(r2, p, i, c);
  }

  lemma AllInvalid(r: Ram, r1: Ram, p: int)
    requires Good(r) && Good(r1) && p in r.role && r.role[p].Node? && FreedBelow(r, r1, p, 512)
    ensures Sound(Released(r1, p), LinkOf(p, r.role[p]))
  {
    if r.role[p].level == 2 {
      AllGone(r, r1, p);
    }
    FreedSound(r1, p);
  }

  // ----- creating and freeing user page tables

  /** No page belongs to root. */
  ghost predicate NoneOf(r: Ram, root: int) {
    forall t :: t in r.role && !Idle(r.role[t]) ==> RootOf(r.role[t]) != root
  }

  lemma FreshRoot(r: Ram, p: int)
    requires Good(r) && p in r.role && Idle(r.role[p])
    ensures NoneOf(r, p)
  {
    forall t | t in r.role && !Idle(r.role[t]) ensures RootOf(r.role[t]) != p {
      assert Hung(r, t, r.role[t]);
      if r.role[t].Leaf? {
        assert Hung(r, r.role[t].up, r.role[r.role[t].up]);
      }
    }
  }

  /** If all pages of root are free again, each page is what it was before root was made. */
  lemma RolesBack(r: Ram, r': Ram, root: int)
    requires Others(r, r', root, {}) && NoneOf(r, root) && NoneOf(r', root)
    ensures && r'.role == r.role
            && forall p :: p in r.role && r.role[p] != Free ==> p in r.mem && p in r'.mem && r'.mem[p] == r.mem[p]
  {
    forall p | p in r.role ensures p in r'.role && r'.role[p] == r.role[p] {
    }
  }

  lemma EmptyTranslation(r: Ram, root: int, v: int)
    requires IsRoot(r, root) && forall j :: Entry(r, root, j) == 0
    ensures Pte(r, root, v) == 0
  {
  }

  lemma CreateOthers(r: Ram, root: int)
    requires Good(r) && |r.free| > 0 && root == r.free[0]
    ensures Others(r, Rooted(Taken(r), root), root, {}) && forall j :: Entry(Rooted(Taken(r), root), root, j) == 0
  {
    TakenSound(r, map[]);
  }

  lemma NoLeaves(r: Ram, root: int)
    requires Good(r) && IsRoot(r, root) && forall v :: 0 <= v < VPNS ==> Pte(r, root, v) == 0
    ensures LeafFree(r, r.role[root])
  {
    forall t, i | t in r.role && Under(r.role[t], r.role[root]) && r.role[t].level == 0 && 0 <= i < 512
      ensures !Valid(Entry(r, t, i))
    {
      assert Hung(r, t, r.role[t]);
      var v := r.role[t].x * 512 + i;
      assert v / 512 == r.role[t].x && Px(0, v) == i;
      PathUp(r, root, t, v);
      assert Pte(r, root, v) == 0;
      ZeroInvalid();
    }
  }

  lemma NoLeafOf(r: Ram, root: int, t: int)
    requires Good(r) && IsRoot(r, root) && LeafFree(r, r.role[root]) && t in r.role && r.role[t].Leaf?
    ensures r.role[t].root != root
  {
    assert Hung(r, t, r.role[t]);
    if r.role[t].root == root {
      RootUnder(r, root, r.role[t].up);
    }
  }

  lemma RootGone(r: Ram, r': Ram, root: int)
    requires Good(r) && IsRoot(r, root) && FreedUnder(r, r', r.role[root]) && LeafFree(r, r.role[root])
    ensures NoneOf(r', root) && Others(r, r', root, {})
  {
    hide Good, LeafFree, Under;
    forall t | t in r'.role ensures !Idle(r'.role[t]) ==> RootOf(r'.role[t]) != root
                            ensures Under(r.role[t], r.role[root]) ==> Mine(r.role[t], root) {
      UnderNode(r.role[t], r.role[root]);
      if r.role[t].Node? && r.role[t].root == root {
        RootUnder(r, root, t);
      } else if r.role[t].Leaf? {
        NoLeafOf(r, root, t);
      }
    }
  }

  lemma UnderNode(t: Role, n: Role)
    requires n.Node?
    ensures Under(t, n) ==> t.Node? && t.root == n.root
  {
  }

  lemma RootUnder(r: Ram, root: int, t: int)
    requires Good(r) && IsRoot(r, root) && t in r.role && r.role[t].Node? && r.role[t].root == root
    ensures Under(r.role[t], r.role[root])
  {
    assert Hung(r, t, r.role[t]);
  }

  // ----- user memory

  function Pages(sz: int): int { (sz + PGSIZE - 1) / PGSIZE }

  /** Of the pages below the trapframe, root maps exactly the first n. */
  ghost predicate Image(r: Ram, root: int, n: int) {
    IsRoot(r, root) && forall v :: 0 <= v < USER ==> (Valid(Pte(r, root, v)) <==> v < n)
  }

  lemma NothingMapped(r: Ram, r1: Ram, root: int, n: int)
    requires Image(r, root, n) && 0 <= n <= USER && UnmapDone(r, r1, root, 0, n)
    requires forall v :: USER <= v < VPNS ==> Pte(r, root, v) == 0
    ensures IsRoot(r1, root) && Others(r, r1, root, {}) && forall v :: 0 <= v < VPNS ==> Pte(r1, root, v) == 0
  {
    hide Node0;
    forall v | 0 <= v < VPNS ensures Pte(r1, root, v) == 0 {
      if v >= n {
        assert Same(r, r1, root, v);
        if v < USER {
          assert !Valid(Pte(r, root, v));
        }
      }
    }
  }

  /** Page v of root is a new page: zeroed and for the user to read, write and execute. */
  ghost predicate NewPage(r: Ram, root: int, v: int) {
    var e := Pte(r, root, v);
    Valid(e) && Flags(e) == PTE_V + PTE_R + PTE_W + PTE_X + PTE_U && Ppn(e) in r.mem && r.mem[Ppn(e)] == Filled(0)
  }

  ghost predicate Grown(r: Ram, r': Ram, root: int, lo: int, hi: int) {
    && IsRoot(r, root) && IsRoot(r', root) && Others(r, r', root, {}) && OtherSame(r, r', root, lo, hi)
    && (forall v :: lo <= v < hi ==> NewPage(r', root, v))
  }

  /** An allocated page filled by its holder. */
  ghost function TakenAs(r: Ram, page: Page): Ram
    requires |r.free| > 0
  {
    var r1 := Taken(r);
    r1.(mem := r1.mem[r.free[0] := page])
  }

  lemma TakenAsGood(r: Ram, root: int, page: Page)
    requires Good(r) && |r.free| > 0 && IsRoot(r, root) && page.Bytes? && |page.bytes| == PGSIZE
    ensures var r', p := TakenAs(r, page), r.free[0];
            && Good(r') && IsRoot(r', root) && p in r.role && r.role[p] == Free && r'.role == r.role[p := Held]
            && r'.mem == r.mem[p := page] && AllSame(r, r', root)
  {
    hide *;
    GoodIs(r);
    TakenSound(r, map[]);
    TakenAsSound(r, page);
    GoodIs(TakenAs(r, page));
    TakenAsSame(r, root, page);
  }

  lemma TakenAsSound(r: Ram, page: Page)
    requires |r.free| > 0 && Sound(Taken(r), map[]) && page.Bytes? && |page.bytes| == PGSIZE
    requires r.free[0] in r.role
    ensures var r', p := TakenAs(r, page), r.free[0];
            Sound(r', map[]) && r'.role == r.role[p := Held] && r'.mem == r.mem[p := page]
  {
    hide Down, Up, FreeOk, Hung;
    var r1, p := Taken(r), r.free[0];
    QuietPage(r1, map[], p, page, Held, r1.free);
    var r' := TakenAs(r, page);
    assert r' == Ram(r1.mem[p := page], r1.free, r1.role[p := Held]);
    FreeSame(r1, r');
  }

  /** A page taken from the free list is mapped by nobody. */
  lemma TakenAsSame(r: Ram, root: int, page: Page)
    requires Good(r) && |r.free| > 0 && IsRoot(r, root) && r.free[0] in r.role && r.role[r.free[0]] == Free
    ensures IsRoot(TakenAs(r, page), root) && AllSame(r, TakenAs(r, page), root)
  {
    hide FreeOk, Down, Up, Pte, Valid, Ppn, IsLeaf, User;
    var r' := TakenAs(r, page);
    forall v | 0 <= v < VPNS ensures Same(r, r', root, v) {
      PteSame(r, r', root, v);
      if v < USER && Valid(Pte(r, root, v)) {
        MappedLeaf(r, root, v);
      }
    }
  }

  /** Allocating a page and mapping it at v. */
  lemma GrowDone(r: Ram, r': Ram, root: int, v: int, page: Page, perm: int)
    requires Good(r) && |r.free| > 0 && IsRoot(r, root) && page.Bytes? && |page.bytes| == PGSIZE && 0 <= v < USER
             && 0 <= perm < 1024
    requires Good(r') && MapRange(TakenAs(r, page), r', root, v, r.free[0], 1, perm)
    ensures IsRoot(r', root) && Others(r, r', root, {}) && OtherSame(r, r', root, v, v + 1)
    ensures Pte(r', root, v) == Make(r.free[0], WithV(perm)) && r.free[0] in r'.mem && r'.mem[r.free[0]] == page
  {
    hide Good, Pte, Make, Own, AllSame, Valid, Ppn, Same, IsLeaf, User, PtesSet, TakenAs, OtherSame, WithV;
    TakenAsGood(r, root, page);
    var r1, p := TakenAs(r, page), r.free[0];
    OneOwned(r', root, v, p, perm);
    MappedLeaf(r', root, v);
    AllOtherSame(r, r1, root, v);
    SameKeys(r);
    OtherSameJoin(r, r1, r', root, v, v, v + 1);
    assert Mine(r.role[p], root) && Mine(r'.role[p], root);
  }

  lemma SameKeys(r: Ram)
    requires Good(r)
    ensures r.mem.Keys == r.role.Keys
  {
  }

  lemma OneOwned(r: Ram, root: int, v: int, p: int, perm: int)
    requires PtesSet(r, root, v, p, 1, perm) && v < USER && 0 <= perm < 1024
    ensures Own(v, p, 1) == {p} && Pte(r, root, v) == Make(p, WithV(perm)) && Valid(Pte(r, root, v))
            && Ppn(Pte(r, root, v)) == p
  {
    assert Pte(r, root, v) == Make(p + (v - v), WithV(perm));
    WithVParts(p, perm);
  }

  lemma AllOtherSame(r: Ram, r': Ram, root: int, v: int)
    requires AllSame(r, r', root)
    ensures OtherSame(r, r', root, v, v)
  {
  }

  /** Mapping the page just allocated failed, and it was given back. */
  lemma GrowUndone(r: Ram, r1: Ram, root: int, v: int, page: Page, perm: int)
    requires Good(r) && |r.free| > 0 && IsRoot(r, root) && page.Bytes? && |page.bytes| == PGSIZE && 0 <= v < USER
             && 0 <= perm < 1024
    requires Good(r1) && MapRange(TakenAs(r, page), r1, root, v, r.free[0], 0, perm)
    ensures Good(Released(r1, r.free[0])) && Steps(r, Released(r1, r.free[0]), root)
  {
    TakenAsGood(r, root, page);
    var r0, p, r' := TakenAs(r, page), r.free[0], Released(r1, r.free[0]);
    assert Own(v, p, 0) == {};
    assert r1.role[p] == Held;
    ReleasedSound(r1, map[], p);
    assert Others(r, r', root, {});
    forall w | 0 <= w < VPNS ensures Same(r, r', root, w) {
      SameMore(r, r0, r1, root, w);
      ReleasedSame(r1, root, p, w);
      SameMore(r, r1, r', root, w);
    }
  }

  lemma ReleasedSame(r: Ram, root: int, p: int, v: int)
    requires Good(r) && IsRoot(r, root) && p in r.role && r.role[p] == Held && 0 <= v < VPNS
    ensures Same(r, Released(r, p), root, v)
  {
    PteSame(r, Released(r, p), root, v);
    if v < USER && Valid(Pte(r, root, v)) {
      MappedLeaf(r, root, v);
    }
  }

  lemma OnePage(r: Ram, root: int, v: int, page: Page, perm: int)
    requires Good(r) && |r.free| > 0 && IsRoot(r, root) && page.Bytes? && |page.bytes| == PGSIZE && 0 <= v < USER
    requires 0 <= perm < 1024 && perm / 2 % 8 != 0 && !Valid(Pte(r, root, v))
    ensures var r1 := TakenAs(r, page); Good(r1) && IsRoot(r1, root) && r1.role.Keys == r.role.Keys
    ensures Ready(TakenAs(r, page), root, v, r.free[0], v, v + 1, perm)
  {
    hide Good, Pte, Valid;
    TakenAsGood(r, root, page);
    var r1 := TakenAs(r, page);
    assert Same(r, r1, root, v);
    assert ReadyAt(r1, root, v, r.free[0], v, perm);
  }

  // ----- growing and shrinking

  ghost function PageSet(r: Ram, root: int, n: int): set<int>
    requires 0 <= n
  {
    if n == 0 then {} else PageSet(r, root, n - 1) + {Ppn(Pte(r, root, n - 1))}
  }

  lemma {:induction false} PageSetSize(r: Ram, root: int, n: int)
    requires Good(r) && IsRoot(r, root) && 0 <= n <= USER && forall v :: 0 <= v < n ==> Valid(Pte(r, root, v))
    ensures |PageSet(r, root, n)| == n && PageSet(r, root, n) <= r.role.Keys
    ensures forall p ::
              p in PageSet(r, root, n) ==> p in r.role && r.role[p].Leaf? && r.role[p].root == root && r.role[p].v < n
  {
    hide Good, Pte, Valid, Ppn, IsLeaf, User;
    if n > 0 {
      PageSetSize(r, root, n - 1);
      MappedLeaf(r, root, n - 1);
    }
  }

  ghost function Range(lo: int, hi: int): set<int>
    decreases hi - lo
  {
    if lo >= hi then {} else Range(lo + 1, hi) + {lo}
  }

  lemma {:induction false} RangeSize(lo: int, hi: int)
    requires lo <= hi
    ensures |Range(lo, hi)| == hi - lo && forall p :: p in Range(lo, hi) <==> lo <= p < hi
    decreases hi - lo
  {
    if lo < hi {
      RangeSize(lo + 1, hi);
    }
  }

  /** There is less physical memory than user address space, so a process cannot grow into the trapframe. */
  lemma PoolBound(r: Ram, root: int, n: int)
    requires Good(r) && Image(r, root, n) && 0 <= n <= USER && forall p :: p in r.role ==> KERNBASE <= p < PHYSTOP
    ensures n <= PHYSTOP - KERNBASE < USER
  {
    hide Good, Range, PageSet, Pte, Valid;
    PageSetSize(r, root, n);
    RangeSize(KERNBASE, PHYSTOP);
    var a, b := PageSet(r, root, n), Range(KERNBASE, PHYSTOP);
    forall p | p in a ensures p in b {
      assert p in r.role;
    }
    assert b == a + (b - a);
  }

  lemma GrowMore(r: Ram, r1: Ram, r2: Ram, root: int, lo: int, v: int, p: int)
    requires Grown(r, r1, root, lo, v) && Image(r1, root, v) && 0 <= lo <= v < USER
    requires IsRoot(r2, root) && Others(r1, r2, root, {}) && OtherSame(r1, r2, root, v, v + 1)
    requires Pte(r2, root, v) == Make(p, WithV(PTE_W + PTE_X + PTE_R + PTE_U)) && p in r2.mem && r2.mem[p] == Filled(0)
    ensures Grown(r, r2, root, lo, v + 1) && Image(r2, root, v + 1)
  {
    hide Pte, Make, Valid, Ppn, Flags, NewPage, Image, Others, OtherSame;
    NewPageMapped(r2, root, v, p);
    OthersMore(r, r1, r2, root, {});
    OtherSameJoin(r, r1, r2, root, lo, v, v + 1);
    ImageMore(r1, r2, root, v);
    forall w | lo <= w < v ensures NewPage(r2, root, w) {
      OneSame(r1, r2, root, v, w);
      NewPageKept(r1, r2, root, w);
    }
  }

  lemma NewPageMapped(r: Ram, root: int, v: int, p: int)
    requires Pte(r, root, v) == Make(p, WithV(PTE_W + PTE_X + PTE_R + PTE_U)) && p in r.mem && r.mem[p] == Filled(0)
    ensures NewPage(r, root, v) && Valid(Pte(r, root, v))
  {
    MakeParts(p, WithV(PTE_W + PTE_X + PTE_R + PTE_U));
  }

  lemma NewPageKept(r: Ram, r': Ram, root: int, v: int)
    requires NewPage(r, root, v) && Same(r, r', root, v) && v < USER
    ensures NewPage(r', root, v)
  {
  }

  lemma GrowUndo(r: Ram, r1: Ram, r2: Ram, r3: Ram, root: int, lo: int, v: int)
    requires Grown(r, r1, root, lo, v) && Image(r, root, lo) && 0 <= lo <= v <= USER
    requires Steps(r1, r2, root) && UnmapDone(r2, r3, root, lo, v)
    ensures Steps(r, r3, root)
  {
    hide Node0;
    OthersMore(r, r1, r2, root, {});
    OthersMore(r, r2, r3, root, {});
    forall w | 0 <= w < VPNS ensures Same(r, r3, root, w) {
      if lo <= w < v {
        assert Pte(r, root, w) == 0;
      } else {
        SameMore(r, r1, r2, root, w);
        SameMore(r, r2, r3, root, w);
      }
    }
  }

  lemma StepsImage(r: Ram, r': Ram, root: int, n: int)
    requires Image(r, root, n) && Steps(r, r', root)
    ensures Image(r', root, n)
  {
    forall v | 0 <= v < USER ensures Valid(Pte(r', root, v)) <==> v < n {
      assert Same(r, r', root, v);
    }
  }

  lemma GrownNone(r: Ram, root: int, lo: int)
    requires Good(r) && IsRoot(r, root)
    ensures Grown(r, r, root, lo, lo)
  {
  }

  lemma ImageRoot(r: Ram, root: int, n: int)
    requires Image(r, root, n)
    ensures IsRoot(r, root) && (0 <= n < USER ==> !Valid(Pte(r, root, n)))
  {
  }

  lemma UndoRange(r: Ram, root: int, lo: int, a: int)
    requires Image(r, root, a) && 0 <= lo <= a <= USER
    ensures Pages(lo * PGSIZE) == lo && Pages(a * PGSIZE) == a
    ensures forall v :: lo <= v < a ==> Valid(Pte(r, root, v))
  {
  }

  // ----- uvmclear

  /** e & ~PTE_U. */
  function WithoutU(e: int): int { if User(e) then e - PTE_U else e }

  lemma WithoutUWeaker(e: int)
    ensures Weaker(WithoutU(e), e) && !User(WithoutU(e))
  {
    if User(e) {
      var k, f := e / 32, e % 16;
      assert e == 32 * k + 16 + f;
      BitsOf(k, 16 + f);
      BitsOf(k, f);
    }
  }

  lemma BitsOf(k: int, f: int)
    requires 0 <= f < 32
    ensures var e := 32 * k + f;
            && Ppn(e) == k / 32 && (Valid(e) <==> f % 2 == 1) && (IsLeaf(e) <==> f / 2 % 8 != 0)
            && (User(e) <==> f >= 16)
  {
    var e := 32 * k + f;
    PageOf(k, f);
    assert e == 2 * (16 * k + f / 2) + f % 2;
    assert e / 2 == 8 * (2 * k) + f / 2;
    Shift(2 * k, f / 2, 8);
    assert e / 16 == 2 * k + f / 16;
    Shift(k, f / 16, 2);
  }

  lemma PageOf(k: int, f: int)
    requires 0 <= f < 32
    ensures (32 * k + f) / 1024 == k / 32
  {
    var a, b := k / 32, k % 32;
    assert 32 * k + f == 1024 * a + (32 * b + f);
  }

  lemma ClearedSame(r: Ram, q: int, i: int, root: int, v: int)
    requires Good(r) && IsNode(r, q, root, 0, v / 512) && 0 <= i < 512 && v == v / 512 * 512 + i && 0 <= v < VPNS
    requires q in r.mem && r.mem[q].Table? && |r.mem[q].ptes| == 512 && Pte(r, root, v) == Norm(Entry(r, q, i))
    ensures var r' := SetEntry(r, q, i, WithoutU(Entry(r, q, i)));
            && Others(r, r', root, {}) && OtherSame(r, r', root, v, v + 1)
            && Pte(r', root, v) == WithoutU(Pte(r, root, v)) && !User(Pte(r', root, v))
  {
    var e := Entry(r, q, i);
    var r' := SetEntry(r, q, i, WithoutU(e));
    TableAt(r, q);
    EntriesSet(r, q, i, WithoutU(e));
    WithoutUWeaker(e);
    ZeroClear();
    hide Down, Up, FreeOk, Pte, Valid, Ppn, IsLeaf, User, Same, Entry, WithoutU;
    forall v' | 0 <= v' < VPNS ensures v' == v ==> Pte(r', root, v') == Norm(WithoutU(e))
                               ensures v' != v ==> Same(r, r', root, v') {
      EntrySame(r, r', q, i, v');
    }
  }

  lemma ZeroClear()
    ensures WithoutU(0) == 0 && !User(0)
  {
  }

  // ----- copying to and from user memory

  ghost predicate UserPage(r: Ram, root: int, v: int) {
    0 <= v < VPNS && Valid(Pte(r, root, v)) && User(Pte(r, root, v))
  }

  /** The byte a user of root finds at address a; -1 where the user has no access. */
  ghost function ByteAt(r: Ram, root: int, a: int): int {
    if UserPage(r, root, a / PGSIZE) then
      var p := Ppn(Pte(r, root, a / PGSIZE));
      if p in r.mem && r.mem[p].Bytes? && a % PGSIZE < |r.mem[p].bytes| then r.mem[p].bytes[a % PGSIZE] else -1
    else -1
  }

  /** From r to r' the bytes src went to address dst of root, and nothing else changed. */
  ghost predicate Stored(r: Ram, r': Ram, root: int, dst: int, src: seq<int>) {
    && r'.role == r.role && r'.free == r.free && IsRoot(r, root) && Others(r, r', root, {})
    && (forall t, v :: IsRoot(r, t) && 0 <= v < VPNS ==> Pte(r', t, v) == Pte(r, t, v))
    && (forall a :: dst <= a < dst + |src| ==> ByteAt(r', root, a) == src[a - dst])
    && (forall t, a :: IsRoot(r, t) && (t != root || !(dst <= a < dst + |src|)) ==> ByteAt(r', t, a) == ByteAt(r, t, a))
  }

  ghost function Poked(r: Ram, p: int, off: int, s: seq<int>): Ram
    requires p in r.mem && r.mem[p].Bytes? && 0 <= off && off + |s| <= |r.mem[p].bytes|
  {
    var b := r.mem[p].bytes;
    r.(mem := r.mem[p := Bytes(b[..off] + s + b[off + |s|..])])
  }

  lemma PokedGood(r: Ram, p: int, off: int, s: seq<int>)
    requires Good(r) && p in r.role && r.role[p].Leaf? && p in r.mem && r.mem[p].Bytes? && |r.mem[p].bytes| == PGSIZE
    requires 0 <= off && off + |s| <= PGSIZE
    ensures Good(Poked(r, p, off, s))
  {
    var r' := Poked(r, p, off, s);
    hide Linked, Down, Up, FreeOk;
    assert forall q, i :: Entry(r', q, i) == Entry(r, q, i);
    ExtensionSound(r, r', map[]);
    FreeSame(r, r');
  }

  lemma PokedPte(r: Ram, p: int, off: int, s: seq<int>, t: int, v: int)
    requires p in r.mem && r.mem[p].Bytes? && 0 <= off && off + |s| <= |r.mem[p].bytes|
    ensures Pte(Poked(r, p, off, s), t, v) == Pte(r, t, v)
  {
    var r' := Poked(r, p, off, s);
    assert forall q, i :: Entry(r', q, i) == Entry(r, q, i);
  }

  lemma PokedByte(r: Ram, p: int, off: int, s: seq<int>, root: int, w: int, t: int, a: int)
    requires Good(r) && IsRoot(r, root) && IsRoot(r, t) && UserPage(r, root, w) && p == Ppn(Pte(r, root, w))
    requires p in r.mem && r.mem[p].Bytes? && |r.mem[p].bytes| == PGSIZE && 0 <= off && off + |s| <= PGSIZE
    ensures ByteAt(Poked(r, p, off, s), t, a) ==
            if t == root && w * PGSIZE + off <= a < w * PGSIZE + off + |s| then s[a - (w * PGSIZE + off)]
              else ByteAt(r, t, a)
  {
    hide Good, Pte, Valid, Ppn, User, IsLeaf;
    var v := a / PGSIZE;
    assert a == v * PGSIZE + a % PGSIZE;
    PokedPte(r, p, off, s, t, v);
    MappedLeaf(r, root, w);
    if UserPage(r, t, v) {
      MappedLeaf(r, t, v);
      if t == root && v == w {
        PokedAt(r.mem[p].bytes, off, s, a % PGSIZE);
      }
    }
  }

  lemma PokedAt(b: seq<int>, off: int, s: seq<int>, i: int)
    requires 0 <= off && off + |s| <= |b| && 0 <= i < |b|
    ensures (b[..off] + s + b[off + |s|..])[i] == if off <= i < off + |s| then s[i - off] else b[i]
  {
  }

  lemma PokeStored(r: Ram, p: int, off: int, s: seq<int>, root: int, w: int)
    requires Good(r) && IsRoot(r, root) && UserPage(r, root, w) && p == Ppn(Pte(r, root, w)) && 0 <= off
             && off + |s| <= PGSIZE
    ensures p in r.role && r.role[p].Leaf? && p in r.mem && r.mem[p].Bytes? && |r.mem[p].bytes| == PGSIZE
    ensures Good(Poked(r, p, off, s)) && Stored(r, Poked(r, p, off, s), root, w * PGSIZE + off, s)
  {
    MappedLeaf(r, root, w);
    PokedGood(r, p, off, s);
    var r' := Poked(r, p, off, s);
    assert Others(r, r', root, {});
    hide Good, Pte, Valid, Ppn, User, IsLeaf, ByteAt;
    forall t, v | IsRoot(r, t) && 0 <= v < VPNS ensures Pte(r', t, v) == Pte(r, t, v) {
      PokedPte(r, p, off, s, t, v);
    }
    forall a | w * PGSIZE + off <= a < w * PGSIZE + off + |s| ensures ByteAt(r', root, a) == s[a - (w * PGSIZE + off)] {
      PokedByte(r, p, off, s, root, w, root, a);
    }
    forall t, a | IsRoot(r, t) && (t != root || !(w * PGSIZE + off <= a < w * PGSIZE + off + |s|))
      ensures ByteAt(r', t, a) == ByteAt(r, t, a)
    {
      PokedByte(r, p, off, s, root, w, t, a);
    }
  }

  lemma StoredMore(r: Ram, r1: Ram, r2: Ram, root: int, dst: int, s: seq<int>, s': seq<int>)
    requires Stored(r, r1, root, dst, s) && Stored(r1, r2, root, dst + |s|, s')
    ensures Stored(r, r2, root, dst, s + s')
  {
    hide Pte, ByteAt;
    OthersMore(r, r1, r2, root, {});
    assert forall t :: IsRoot(r, t) <==> IsRoot(r1, t);
  }

  lemma StoredNone(r: Ram, root: int, dst: int)
    requires Good(r) && IsRoot(r, root)
    ensures Stored(r, r, root, dst, [])
  {
  }

  lemma NoNodeNoPage(r: Ram, root: int, v: int)
    ensures Node0(r, root, v) == 0 ==> !UserPage(r, root, v)
  {
  }

  lemma UserPpn(r: Ram, root: int, v: int)
    requires Good(r) && IsRoot(r, root) && UserPage(r, root, v)
    ensures Ppn(Pte(r, root, v)) != 0
  {
    MappedLeaf(r, root, v);
  }

  lemma SamePage(va: int, n: int, w: int)
    requires 0 <= va && w == va / PGSIZE && 0 <= n && va % PGSIZE + n <= PGSIZE
    ensures forall a :: va <= a < va + n ==> a / PGSIZE == w
    ensures va % PGSIZE + n == PGSIZE ==> (va + n) % PGSIZE == 0
  {
  }

  lemma StoredUser(r: Ram, r': Ram, root: int, dst: int, s: seq<int>, w: int)
    requires Stored(r, r', root, dst, s)
    ensures IsRoot(r', root) && (UserPage(r', root, w) <==> UserPage(r, root, w))
  {
  }

  lemma UserBytes(r: Ram, root: int, w: int)
    requires Good(r) && IsRoot(r, root) && UserPage(r, root, w)
    ensures var p := Ppn(Pte(r, root, w)); p in r.mem && r.mem[p].Bytes? && |r.mem[p].bytes| == PGSIZE
  {
    MappedLeaf(r, root, w);
  }

  lemma PartBytes(r: Ram, root: int, va: int, m: int, part: seq<int>)
    requires Good(r) && IsRoot(r, root) && 0 <= va && UserPage(r, root, va / PGSIZE) && 0 <= m
             && va % PGSIZE + m <= PGSIZE
    requires var p := Ppn(Pte(r, root, va / PGSIZE));
             && p in r.mem && r.mem[p].Bytes? && |r.mem[p].bytes| == PGSIZE
             && part == r.mem[p].bytes[va % PGSIZE..va % PGSIZE + m]
    ensures forall i :: 0 <= i < m ==> part[i] == ByteAt(r, root, va + i)
  {
    hide Good, Pte, Valid, Ppn, User;
    forall i | 0 <= i < m ensures part[i] == ByteAt(r, root, va + i) {
      assert (va + i) / PGSIZE == va / PGSIZE && (va + i) % PGSIZE == va % PGSIZE + i;
    }
  }

  lemma StoredByte(r: Ram, r': Ram, root: int, dst: int, src: seq<int>, i: int)
    requires Stored(r, r', root, dst, src) && 0 <= i < |src|
    ensures ByteAt(r', root, dst + i) == src[i]
  {
    assert ByteAt(r', root, dst + i) == src[(dst + i) - dst];
  }

  // ----- uvmcopy

  /** Page v of the table `to` in r' has the bytes and the permissions of page v of `from` in r. */
  ghost predicate CopyOf(r: Ram, r': Ram, from: int, to: int, v: int) {
    var e, e' := Pte(r, from, v), Pte(r', to, v);
    Valid(e') && Flags(e') == Flags(e) && Ppn(e) in r.mem && Ppn(e') in r'.mem && r'.mem[Ppn(e')] == r.mem[Ppn(e)]
  }

  ghost predicate CopyDone(r: Ram, r': Ram, from: int, to: int, n: int) {
    && IsRoot(r, to) && Image(r', to, n) && Others(r, r', to, {}) && OtherSame(r, r', to, 0, n)
    && (forall v :: 0 <= v < n ==> CopyOf(r, r', from, to, v))
  }

  lemma CopyMore(r: Ram, r1: Ram, r2: Ram, from: int, to: int, v: int, p: int)
    requires CopyDone(r, r1, from, to, v) && 0 <= v < USER && IsRoot(r2, to) && Others(r1, r2, to, {})
             && OtherSame(r1, r2, to, v, v + 1)
    requires Valid(Pte(r, from, v)) && Pte(r2, to, v) == Make(p, Flags(Pte(r, from, v)))
             && Ppn(Pte(r, from, v)) in r.mem
    requires p in r2.mem && r2.mem[p] == r.mem[Ppn(Pte(r, from, v))]
    ensures CopyDone(r, r2, from, to, v + 1)
  {
    hide Pte, Valid, Ppn, Flags, Make, CopyOf, Image, Others, OtherSame;
    CopyNew(r, r2, from, to, v, p);
    OthersMore(r, r1, r2, to, {});
    OtherSameJoin(r, r1, r2, to, 0, v, v + 1);
    ImageMore(r1, r2, to, v);
    forall w | 0 <= w < v ensures CopyOf(r, r2, from, to, w) {
      OneSame(r1, r2, to, v, w);
      CopyKept(r, r1, r2, from, to, w);
    }
  }

  lemma OneSame(r: Ram, r': Ram, root: int, v: int, w: int)
    requires OtherSame(r, r', root, v, v + 1) && 0 <= w < VPNS && w != v
    ensures Same(r, r', root, w)
  {
  }

  lemma CopyNew(r: Ram, r2: Ram, from: int, to: int, v: int, p: int)
    requires Valid(Pte(r, from, v)) && Pte(r2, to, v) == Make(p, Flags(Pte(r, from, v)))
             && Ppn(Pte(r, from, v)) in r.mem
    requires p in r2.mem && r2.mem[p] == r.mem[Ppn(Pte(r, from, v))]
    ensures Valid(Pte(r2, to, v)) && CopyOf(r, r2, from, to, v)
  {
    var e := Pte(r, from, v);
    FlagsParts(e);
    MakeParts(p, Flags(e));
  }

  lemma CopyKept(r: Ram, r1: Ram, r2: Ram, from: int, to: int, w: int)
    requires CopyOf(r, r1, from, to, w) && Same(r1, r2, to, w) && w < USER
    ensures CopyOf(r, r2, from, to, w)
  {
  }

  lemma ImageMore(r1: Ram, r2: Ram, root: int, v: int)
    requires Image(r1, root, v) && IsRoot(r2, root) && OtherSame(r1, r2, root, v, v + 1) && Valid(Pte(r2, root, v))
    ensures Image(r2, root, v + 1)
  {
    hide Pte, Valid;
    forall w | 0 <= w < USER && w != v ensures Valid(Pte(r2, root, w)) <==> Valid(Pte(r1, root, w)) {
      assert Same(r1, r2, root, w);
    }
  }

  lemma FlagsParts(e: int)
    ensures 0 <= Flags(e) < 1024 && (Valid(e) <==> Flags(e) % 2 == 1) && (IsLeaf(e) <==> Flags(e) / 2 % 8 != 0)
  {
    assert e == Make(Ppn(e), Flags(e));
    MakeParts(Ppn(e), Flags(e));
  }

  lemma CopyUndo(r: Ram, r1: Ram, r2: Ram, r3: Ram, from: int, to: int, v: int)
    requires CopyDone(r, r1, from, to, v) && Image(r, to, 0) && 0 <= v <= USER
    requires Steps(r1, r2, to) && UnmapDone(r2, r3, to, 0, v)
    ensures Steps(r, r3, to)
  {
    hide Node0;
    OthersMore(r, r1, r2, to, {});
    OthersMore(r, r2, r3, to, {});
    forall w | 0 <= w < VPNS ensures Same(r, r3, to, w) {
      if 0 <= w < v {
        assert Pte(r, to, w) == 0;
      } else {
        SameMore(r, r1, r2, to, w);
        SameMore(r, r2, r3, to, w);
      }
    }
  }

  lemma CopyNone(r: Ram, from: int, to: int)
    requires Good(r) && Image(r, to, 0)
    ensures CopyDone(r, r, from, to, 0)
  {
  }

  /** Another table is not affected. */
  lemma ParentSame(r: Ram, r': Ram, to: int, from: int)
    requires Good(r) && Others(r, r', to, {}) && IsRoot(r, from) && from != to
    ensures IsRoot(r', from) && AllSame(r, r', from)
  {
    forall v | 0 <= v < VPNS ensures IsRoot(r', from) && Same(r, r', from, v) {
      OthersKept(r, r', to, {}, from, v);
    }
    OthersKept(r, r', to, {}, from, 0);
  }

  lemma CopyParts(r: Ram, r1: Ram, from: int, to: int, i: int)
    requires CopyDone(r, r1, from, to, i) && 0 <= i <= USER
    ensures IsRoot(r1, to) && Others(r, r1, to, {}) && Image(r1, to, i) && (i < USER ==> !Valid(Pte(r1, to, i)))
  {
  }

  lemma StepsOthers(r: Ram, r1: Ram, to: int)
    requires Steps(r, r1, to)
    ensures Others(r, r1, to, {}) && IsRoot(r1, to) && IsRoot(r, to)
  {
  }

  lemma MappedIn(r: Ram, root: int, v: int, n: int)
    requires Good(r) && Image(r, root, n) && 0 <= v < n <= USER
    ensures Valid(Pte(r, root, v)) && Ppn(Pte(r, root, v)) in r.mem
  {
    MappedLeaf(r, root, v);
  }

  lemma ParentPage(r: Ram, r1: Ram, from: int, v: int)
    requires Good(r1) && IsRoot(r1, from) && AllSame(r, r1, from) && 0 <= v < USER && Valid(Pte(r, from, v))
             && Ppn(Pte(r, from, v)) in r.mem
    ensures Pte(r1, from, v) == Pte(r, from, v) && IsLeaf(Pte(r, from, v))
    ensures var p := Ppn(Pte(r, from, v));
            && p in r1.mem && r1.mem[p] == r.mem[p] && r1.mem[p].Bytes? && |r1.mem[p].bytes| == PGSIZE
  {
    assert Same(r, r1, from, v);
    MappedLeaf(r1, from, v);
  }
}
