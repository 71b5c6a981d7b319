/**
 * kernel/exec.c with proc_pagetable and proc_freepagetable of kernel/proc.c: a new user image is built in a
 * new page table and takes the place of the old one, or is given back page by page.
 */
module Exec {
  import opened PageRam
  import opened PageSteps
  import opened Vm

  // ----- page tables of processes

  /** Pages enough to make a process's table with no user memory. */
  const TABLE_PAGES: int := 5

  /** A process's table: the first n user pages, the trapframe and the trampoline. */
  ghost predicate ProcTable(r: Ram, root: int, n: int) {
    && Image(r, root, n) && 0 <= n <= USER
    && Valid(Pte(r, root, USER)) && Valid(Pte(r, root, USER + 1))
  }

  /** The trapframe and the trampoline are mapped as they were. */
  ghost predicate TopsKept(r: Ram, r': Ram, root: int) {
    Pte(r', root, USER) == Pte(r, root, USER) && Pte(r', root, USER + 1) == Pte(r, root, USER + 1)
  }

  /** They are mapped for the kernel, the one to read and write, the other to read and execute. */
  ghost predicate Fixed(r: Ram, root: int, trampoline: int, trapframe: int) {
    && Pte(r, root, USER) == Make(trapframe, WithV(PTE_R + PTE_W))
    && Pte(r, root, USER + 1) == Make(trampoline, WithV(PTE_R + PTE_X))
  }

  lemma TopsSame(r: Ram, r': Ram, root: int, lo: int, hi: int)
    requires OtherSame(r, r', root, lo, hi) && hi <= USER
    ensures TopsKept(r, r', root)
  {
    hide Pte;
    assert Same(r, r', root, USER) && Same(r, r', root, USER + 1);
  }

  lemma TopsMore(r: Ram, r1: Ram, r2: Ram, root: int)
    requires TopsKept(r, r1, root) && TopsKept(r1, r2, root)
    ensures TopsKept(r, r2, root)
  {
  }

  lemma TopsAll(r: Ram, r': Ram, root: int)
    requires AllSame(r, r', root)
    ensures TopsKept(r, r', root)
  {
    hide Pte;
    assert Same(r, r', root, USER) && Same(r, r', root, USER + 1);
  }

  lemma TopsStored(r: Ram, r': Ram, root: int, dst: int, src: seq<int>)
    requires Stored(r, r', root, dst, src)
    ensures TopsKept(r, r', root)
  {
  }

  lemma FixedKept(r: Ram, r': Ram, root: int, trampoline: int, trapframe: int)
    requires Fixed(r, root, trampoline, trapframe) && TopsKept(r, r', root)
    ensures Fixed(r', root, trampoline, trapframe)
  {
  }

  /** Every page below n is for the user. */
  ghost predicate AllUser(r: Ram, root: int, n: int) {
    forall v :: 0 <= v < n ==> UserPage(r, root, v)
  }

  lemma FixedDone(r: Ram, r': Ram, root: int, v: int, p: int, perm: int)
    requires MapRange(r, r', root, v, p, 1, perm) && USER <= v < VPNS && 0 <= perm < 1024
    ensures Others(r, r', root, {}) && OtherSame(r, r', root, v, v + 1) && IsRoot(r', root)
    ensures Pte(r', root, v) == Make(p, WithV(perm)) && Valid(Pte(r', root, v))
  {
    assert Own(v, p, 1) == {};
    assert Pte(r', root, v) == Make(p + (v - v), WithV(perm));
    WithVParts(p, perm);
  }

  lemma FixedUndone(r: Ram, r': Ram, root: int, v: int, p: int, perm: int)
    requires MapRange(r, r', root, v, p, 0, perm)
    ensures Steps(r, r', root)
  {
    assert Own(v, p, 0) == {};
  }

  /** Map one page that the table does not own, at or above the trapframe. */
  method MapFixed(m: Memory, root: int, v: int, p: int, perm: int) returns (ok: bool)
    requires m.Kernel() && IsRoot(m.R(), root) && USER <= v < VPNS && !Valid(Pte(m.R(), root, v))
    requires 0 <= perm < 1024 && perm / 2 % 8 != 0 && perm / 16 % 2 == 0
    modifies m`mem, m`free, m`role
    ensures m.Kernel() && IsRoot(m.R(), root) && Others(old(m.R()), m.R(), root, {})
    ensures !ok ==> AllSame(old(m.R()), m.R(), root) && m.free == []
    ensures |old(m.free)| <= |m.free| + 2
    ensures ok ==>
              && OtherSame(old(m.R()), m.R(), root, v, v + 1) && Pte(m.R(), root, v) == Make(p, WithV(perm))
              && Valid(Pte(m.R(), root, v))
  {
    hide Good, Pte, Valid, Make, MapRange, Others, OtherSame, AllSame;
    ghost var r := m.R();
    ghost var n;
    assert ReadyAt(r, root, v, p, v, perm);
    ok, n := m.Mappages(root, v * PGSIZE, PGSIZE, p, perm);
    if ok {
      FixedDone(r, m.R(), root, v, p, perm);
    } else {
      FixedUndone(r, m.R(), root, v, p, perm);
    }
  }

  ghost predicate NoUser(r: Ram, root: int) {
    IsRoot(r, root) && forall v :: 0 <= v < USER ==> Pte(r, root, v) == 0
  }

  lemma NoUserKept(r: Ram, r': Ram, root: int, v: int)
    requires NoUser(r, root) && IsRoot(r', root) && OtherSame(r, r', root, v, v + 1) && USER <= v
    ensures NoUser(r', root)
  {
    hide Pte;
    forall w | 0 <= w < USER ensures Pte(r', root, w) == 0 {
      OneSame(r, r', root, v, w);
    }
  }

  lemma NoUserImage(r: Ram, root: int)
    requires NoUser(r, root)
    ensures Image(r, root, 0) && Image(r, root, Pages(0))
  {
    ZeroInvalid();
  }

  /** A table for a process with no user memory; null (0) and every page back in place if memory runs out. */
  method ProcPagetable(m: Memory, trampoline: int, trapframe: int) returns (root: int)
    requires m.Kernel()
    modifies m`mem, m`free, m`role
    ensures m.Kernel()
    ensures root == 0 ==> RolesKept(old(m.R()), m.R()) && |old(m.free)| <= TABLE_PAGES
    ensures root != 0 ==> |old(m.free)| <= |m.free| + TABLE_PAGES
    ensures root != 0 ==> NoneOf(old(m.R()), root) && Others(old(m.R()), m.R(), root, {}) && ProcTable(m.R(), root, 0)
    ensures root != 0 ==> Fixed(m.R(), root, trampoline, trapframe)
  {
    hide Good, Pte, Valid, Make, Others, OtherSame, AllSame, NoneOf, Image, UnmapDone;
    ghost var r := m.R();
    root := m.Uvmcreate();
    if root == 0 {
      KeptSelf(r);
      return;
    }
    ghost var r1 := m.R();
    ZeroInvalid();
    assert Pte(r1, root, USER) == 0 && Pte(r1, root, USER + 1) == 0;
    var ok := MapFixed(m, root, USER + 1, trampoline, PTE_R + PTE_X);
    ghost var r2 := m.R();
    OthersMore(r, r1, r2, root, {});
    if !ok {
      EmptyStill(r1, r2, root);
      Discard(m, r, root);
      return 0;
    }
    NoUserKept(r1, r2, root, USER + 1);
    OneSame(r1, r2, root, USER + 1, USER);
    SamePte(r1, r2, root, USER);
    ok := MapFixed(m, root, USER, trapframe, PTE_R + PTE_W);
    ghost var r3 := m.R();
    OthersMore(r, r2, r3, root, {});
    if !ok {
      AfterFailure(r2, r3, root);
      assert (USER + 1) * PGSIZE / PGSIZE == USER + 1;
      m.Uvmunmap(root, (USER + 1) * PGSIZE, 1, false);
      UnmappedTop(r, r3, m.R(), root);
      Discard(m, r, root);
      return 0;
    }
    NoUserKept(r2, r3, root, USER);
    NoUserImage(r3, root);
    OneSame(r2, r3, root, USER, USER + 1);
    SamePte(r2, r3, root, USER + 1);
  }

  /** Every page has the role it had, and pages in use have their contents. */
  ghost predicate RolesKept(r: Ram, r': Ram) {
    && r'.role == r.role
    && forall p :: p in r.role && r.role[p] != Free ==> p in r.mem && p in r'.mem && r'.mem[p] == r.mem[p]
  }

  lemma KeptSelf(r: Ram)
    requires Good(r)
    ensures RolesKept(r, r)
  {
  }

  /** Nothing is mapped at all. */
  ghost predicate Blank(r: Ram, root: int) {
    IsRoot(r, root) && forall v :: 0 <= v < VPNS ==> Pte(r, root, v) == 0
  }

  lemma EmptyStill(r: Ram, r': Ram, root: int)
    requires Blank(r, root) && IsRoot(r', root) && AllSame(r, r', root)
    ensures Blank(r', root)
  {
    hide Pte;
    forall v | 0 <= v < VPNS ensures Pte(r', root, v) == 0 {
      assert Same(r, r', root, v);
    }
  }

  lemma AfterFailure(r: Ram, r': Ram, root: int)
    requires NoUser(r, root) && Valid(Pte(r, root, USER + 1)) && Pte(r, root, USER) == 0 && IsRoot(r', root)
             && AllSame(r, r', root)
    ensures NoUser(r', root) && Valid(Pte(r', root, USER + 1)) && Pte(r', root, USER) == 0
  {
    hide Pte;
    forall v | 0 <= v < VPNS ensures Pte(r', root, v) == Pte(r, root, v) {
      assert Same(r, r', root, v);
    }
  }

  lemma UnmappedTop(r: Ram, r1: Ram, r2: Ram, root: int)
    requires NoUser(r1, root) && Pte(r1, root, USER) == 0 && UnmapDone(r1, r2, root, USER + 1, USER + 2)
             && Others(r, r1, root, {})
    ensures Blank(r2, root) && Others(r, r2, root, {})
  {
    OthersMore(r, r1, r2, root, {});
    hide Pte;
    forall v | 0 <= v < VPNS ensures Pte(r2, root, v) == 0 {
      if v <= USER {
        assert Same(r1, r2, root, v);
      }
    }
  }

  /** uvmfree(root, 0) on a table made after r. */
  method Discard(m: Memory, ghost r: Ram, root: int)
    requires m.Kernel() && Blank(m.R(), root) && Others(r, m.R(), root, {}) && NoneOf(r, root)
    modifies m`mem, m`free, m`role
    ensures m.Kernel() && RolesKept(r, m.R())
  {
    hide Good, Pte, Others, NoneOf, Image, Valid;
    ghost var r1 := m.R();
    NoUserImage(r1, root);
    m.Uvmfree(root, 0);
    OthersMore(r, r1, m.R(), root, {});
    RolesBack(r, m.R(), root);
  }

  /** Unmap the trampoline and the trapframe and free everything else. */
  method ProcFreepagetable(m: Memory, root: int, sz: int)
    requires m.Kernel() && 0 <= sz && ProcTable(m.R(), root, Pages(sz))
    modifies m`mem, m`free, m`role
    ensures m.Kernel() && NoneOf(m.R(), root) && Others(old(m.R()), m.R(), root, {})
  {
    hide Good, Pte, Others, NoneOf, Valid, UnmapDone, Image;
    ghost var r := m.R();
    ImageRoot(r, root, Pages(sz));
    assert (USER + 1) * PGSIZE / PGSIZE == USER + 1 && USER * PGSIZE / PGSIZE == USER;
    m.Uvmunmap(root, (USER + 1) * PGSIZE, 1, false);
    ghost var r1 := m.R();
    StillImage(r, r1, root, USER + 1, Pages(sz));
    m.Uvmunmap(root, USER * PGSIZE, 1, false);
    ghost var r2 := m.R();
    StillImage(r1, r2, root, USER, Pages(sz));
    OthersMore(r, r1, r2, root, {});
    m.Uvmfree(root, sz);
    OthersMore(r, r2, m.R(), root, {});
  }

  /** Unmapping a page at or above the trapframe leaves the user pages alone. */
  lemma StillImage(r: Ram, r': Ram, root: int, v: int, n: int)
    requires Image(r, root, n) && UnmapDone(r, r', root, v, v + 1) && (v == USER || v == USER + 1)
    ensures IsRoot(r', root) && Image(r', root, n) && Others(r, r', root, {}) && Pte(r', root, v) == 0
    ensures v == USER + 1 ==> Pte(r', root, USER) == Pte(r, root, USER)
    ensures v == USER ==> Pte(r', root, USER + 1) == Pte(r, root, USER + 1)
  {
    hide Pte, Valid;
    assert Same(r, r', root, if v == USER then USER + 1 else USER);
    forall w | 0 <= w < USER ensures Valid(Pte(r', root, w)) <==> w < n {
      assert Same(r, r', root, w);
    }
  }

  // ----- loading the program

  const UINT64: int := 0x1_0000_0000_0000_0000

  /** A program header as read from the file: readable tells whether all of it could be read, bytes are the
      file's bytes from its offset on. */
  datatype Segment = Segment(readable: bool, load: bool, vaddr: int, memsz: int, filesz: int, bytes: seq<int>)

  predicate IsSegment(s: Segment) {
    0 <= s.vaddr < UINT64 && 0 <= s.memsz < UINT64 && 0 <= s.filesz < UINT64
  }

  /** What a program with these headers finds at address a: the byte of the last segment that has one. */
  ghost function SegByte(segs: seq<Segment>, a: int): int {
    if segs == [] then 0
    else
      var s := segs[|segs| - 1];
      if s.load && s.vaddr <= a < s.vaddr + s.filesz && a - s.vaddr < |s.bytes| then s.bytes[a - s.vaddr]
      else SegByte(segs[..|segs| - 1], a)
  }

  /** Where the loaded segments end. */
  ghost function EndOf(segs: seq<Segment>): (n: int) {
    if segs == [] then 0
    else
      var s, n := segs[|segs| - 1], EndOf(segs[..|segs| - 1]);
      if s.load && s.vaddr + s.memsz > n then s.vaddr + s.memsz else n
  }

  /** exec accepts this header when the segments before it end at n. */
  predicate SegmentOk(s: Segment, n: int) {
    s.readable && (s.load ==>
      && s.filesz <= s.memsz && s.vaddr + s.memsz < UINT64 && (s.vaddr + s.memsz > 0 || n > 0)
      && s.vaddr % PGSIZE == 0 && s.filesz <= |s.bytes|)
  }

  ghost predicate SegmentsOk(segs: seq<Segment>) {
    segs == [] || (SegmentsOk(segs[..|segs| - 1]) && SegmentOk(segs[|segs| - 1], EndOf(segs[..|segs| - 1])))
  }

  lemma {:induction false} NothingPast(segs: seq<Segment>, a: int)
    requires SegmentsOk(segs) && a >= EndOf(segs)
    ensures SegByte(segs, a) == 0
  {
    if segs != [] {
      NothingPast(segs[..|segs| - 1], a);
    }
  }

  lemma OneMore(segs: seq<Segment>, k: int)
    requires 0 <= k < |segs|
    ensures segs[..k + 1][..k] == segs[..k] && segs[..k + 1][k] == segs[k] && |segs[..k + 1]| == k + 1
  {
  }

  /** The table maps sz bytes for the user and they hold what the segments say. */
  ghost predicate Holding(r: Ram, root: int, sz: int, segs: seq<Segment>) {
    && 0 <= sz && ProcTable(r, root, Pages(sz)) && AllUser(r, root, Pages(sz))
    && (forall a :: 0 <= a < Pages(sz) * PGSIZE ==> ByteAt(r, root, a) == SegByte(segs, a))
  }

  ghost predicate Loaded(r: Ram, root: int, sz: int, segs: seq<Segment>) {
    Holding(r, root, sz, segs) && SegmentsOk(segs) && EndOf(segs) == sz
  }

  /** Growing keeps a table a process's table. */
  lemma GrownTable(r: Ram, r': Ram, root: int, n: int, n': int)
    requires ProcTable(r, root, n) && Grown(r, r', root, n, n') && Image(r', root, n') && n <= n' <= USER
    ensures ProcTable(r', root, n')
  {
    hide Pte, Valid, NewPage;
    assert Same(r, r', root, USER) && Same(r, r', root, USER + 1);
  }

  lemma StepsTable(r: Ram, r': Ram, root: int, n: int)
    requires ProcTable(r, root, n) && Steps(r, r', root) && Image(r', root, n)
    ensures ProcTable(r', root, n)
  {
    hide Pte, Valid;
    assert Same(r, r', root, USER) && Same(r, r', root, USER + 1);
  }

  lemma SameByte(r: Ram, r': Ram, root: int, a: int)
    requires Good(r) && IsRoot(r, root) && Same(r, r', root, a / PGSIZE) && UserPage(r, root, a / PGSIZE)
    ensures UserPage(r', root, a / PGSIZE) && ByteAt(r', root, a) == ByteAt(r, root, a)
  {
    MappedLeaf(r, root, a / PGSIZE);
  }

  lemma NewByte(r: Ram, root: int, a: int)
    requires NewPage(r, root, a / PGSIZE) && 0 <= a / PGSIZE < VPNS
    ensures UserPage(r, root, a / PGSIZE) && ByteAt(r, root, a) == 0
  {
    var e := Pte(r, root, a / PGSIZE);
    assert e == Make(Ppn(e), Flags(e));
    MakeParts(Ppn(e), Flags(e));
  }

  lemma PagesCover(sz: int, a: int)
    requires 0 <= sz
    ensures a >= Pages(sz) * PGSIZE ==> a >= sz
    ensures 0 <= a < Pages(sz) * PGSIZE <==> 0 <= a && a / PGSIZE < Pages(sz)
  {
  }

  /** uvmalloc in exec: the new pages read as zero. */
  lemma GrownLoaded(r: Ram, r': Ram, root: int, sz: int, newsz: int, segs: seq<Segment>)
    requires Good(r) && Loaded(r, root, sz, segs) && sz <= newsz && Grown(r, r', root, Pages(sz), Pages(newsz))
    requires Pages(newsz) <= USER && Image(r', root, Pages(newsz))
    ensures Holding(r', root, newsz, segs)
  {
    hide Good, Pte, Valid, User, ByteAt, UserPage, NewPage, SegByte, EndOf, SegmentsOk;
    GrownTable(r, r', root, Pages(sz), Pages(newsz));
    forall a | 0 <= a < Pages(newsz) * PGSIZE
      ensures UserPage(r', root, a / PGSIZE) && ByteAt(r', root, a) == SegByte(segs, a)
    {
      GrownByte(r, r', root, sz, newsz, segs, a);
    }
    forall v | 0 <= v < Pages(newsz) ensures UserPage(r', root, v) {
      assert v * PGSIZE / PGSIZE == v;
    }
  }

  lemma GrownByte(r: Ram, r': Ram, root: int, sz: int, newsz: int, segs: seq<Segment>, a: int)
    requires Good(r) && Loaded(r, root, sz, segs) && sz <= newsz && Grown(r, r', root, Pages(sz), Pages(newsz))
    requires Pages(newsz) <= USER && 0 <= a < Pages(newsz) * PGSIZE
    ensures UserPage(r', root, a / PGSIZE) && ByteAt(r', root, a) == SegByte(segs, a)
  {
    hide Good, Pte, Valid, User, ByteAt, UserPage, NewPage, SegByte, EndOf, SegmentsOk, Same;
    PagesCover(sz, a);
    PagesCover(newsz, a);
    if a / PGSIZE < Pages(sz) {
      SameByte(r, r', root, a);
    } else {
      NewByte(r', root, a);
      NothingPast(segs, a);
    }
  }

  lemma StoredTable(r: Ram, r': Ram, root: int, dst: int, src: seq<int>, n: int)
    requires ProcTable(r, root, n) && Stored(r, r', root, dst, src)
    ensures ProcTable(r', root, n) && (AllUser(r, root, n) ==> AllUser(r', root, n))
  {
    hide Valid, User;
    forall v | 0 <= v < USER ensures Valid(Pte(r', root, v)) <==> v < n {
      assert Pte(r', root, v) == Pte(r, root, v);
    }
    if AllUser(r, root, n) {
      forall v | 0 <= v < n ensures UserPage(r', root, v) {
        assert UserPage(r, root, v);
        assert Pte(r', root, v) == Pte(r, root, v);
      }
    }
  }

  /** readi of part into the page that user page w maps. */
  method ReadPage(m: Memory, root: int, w: int, part: seq<int>)
    requires m.Kernel() && IsRoot(m.R(), root) && 0 <= w < VPNS && UserPage(m.R(), root, w) && |part| <= PGSIZE
    modifies m`mem, m`free, m`role
    ensures m.Kernel() && IsRoot(m.R(), root) && m.free == old(m.free)
    ensures Stored(old(m.R()), m.R(), root, w * PGSIZE, part)
  {
    hide Good, Pte, Valid, Ppn, User, Stored;
    ghost var r := m.R();
    var p := m.Walkaddr(root, w);
    PokeStored(r, p, 0, part, root, w);
    var b := m.mem[p].bytes;
    m.mem := m.mem[p := Bytes(part + b[|part|..])];
    PokedAt0(r, m.R(), p, part);
  }

  /** Read a segment's bytes into the pages that hold it; the precondition that they are mapped for the user
      is the loadseg panic. */
  method Loadseg(m: Memory, root: int, va: int, filesz: int, bytes: seq<int>, ghost n: int) returns (ok: bool)
    requires m.Kernel() && ProcTable(m.R(), root, n) && AllUser(m.R(), root, n)
    requires 0 <= va && va % PGSIZE == 0 && 0 <= filesz && va + filesz <= n * PGSIZE
    modifies m`mem, m`free, m`role
    ensures m.Kernel() && (ok <==> filesz <= |bytes|) && m.free == old(m.free)
    ensures Stored(old(m.R()), m.R(), root, va, if ok then bytes[..filesz] else bytes)
  {
    hide Good, Pte, Valid, Ppn, User, Stored, ProcTable, AllUser;
    ghost var r := m.R();
    TableRoot(r, root, n);
    StoredNone(r, root, va);
    var i := 0;
    assert bytes[..0] == [];
    while i < filesz
      invariant 0 <= i && (i < filesz ==> i % PGSIZE == 0) && (i <= filesz || i < filesz + PGSIZE)
      invariant m.Kernel() && IsRoot(m.R(), root) && m.free == r.free
      invariant var d := if i < filesz then i else filesz; 0 <= d <= |bytes| && Stored(r, m.R(), root, va, bytes[..d])
      decreases filesz - i
    {
      ghost var r1 := m.R();
      var w := (va + i) / PGSIZE;
      StoredTable(r, r1, root, va, bytes[..i], n);
      UserAt(r1, root, n, w);
      var len := if filesz - i < PGSIZE then filesz - i else PGSIZE;
      var part := if i + len <= |bytes| then bytes[i..i + len] else bytes[i..];
      assert w * PGSIZE == va + i;
      ReadPage(m, root, w, part);
      StoredMore(r, r1, m.R(), root, va, bytes[..i], part);
      if i + len > |bytes| {
        assert bytes[..i] + part == bytes;
        return false;
      }
      assert bytes[..i] + part == bytes[..i + len];
      i := i + PGSIZE;
    }
    ok := true;
  }

  lemma TableRoot(r: Ram, root: int, n: int)
    requires ProcTable(r, root, n)
    ensures IsRoot(r, root) && 0 <= n <= USER
  {
  }

  lemma UserAt(r: Ram, root: int, n: int, v: int)
    requires ProcTable(r, root, n) && AllUser(r, root, n) && 0 <= v < n
    ensures UserPage(r, root, v) && 0 <= v < VPNS
  {
  }

  lemma PokedAt0(r: Ram, r': Ram, p: int, part: seq<int>)
    requires p in r.mem && r.mem[p].Bytes? && |part| <= |r.mem[p].bytes|
    requires r'.role == r.role && r'.free == r.free && r'.mem == r.mem[p := Bytes(part + r.mem[p].bytes[|part|..])]
    ensures r' == Poked(r, p, 0, part)
  {
    var b := r.mem[p].bytes;
    assert b[..0] + part + b[|part|..] == part + b[|part|..];
  }

  /** Loading a segment makes its bytes the ones found. */
  lemma StoredHolding(r: Ram, r': Ram, root: int, sz: int, segs: seq<Segment>, k: int)
    requires 0 <= k < |segs| && Holding(r, root, sz, segs[..k])
    requires var s := segs[k]; s.load && 0 <= s.filesz <= |s.bytes| && Stored(r, r', root, s.vaddr, s.bytes[..s.filesz])
    ensures Holding(r', root, sz, segs[..k + 1])
  {
    hide Pte, Valid, User, ByteAt, Others, ProcTable, AllUser;
    var s := segs[k];
    StoredTable(r, r', root, s.vaddr, s.bytes[..s.filesz], Pages(sz));
    OneMore(segs, k);
    TableRoot(r, root, Pages(sz));
    forall a | 0 <= a < Pages(sz) * PGSIZE ensures ByteAt(r', root, a) == SegByte(segs[..k + 1], a) {
      if s.vaddr <= a < s.vaddr + s.filesz {
        assert ByteAt(r', root, a) == s.bytes[..s.filesz][a - s.vaddr];
      } else {
        assert ByteAt(r', root, a) == ByteAt(r, root, a);
      }
    }
  }

  lemma SkipHolding(r: Ram, root: int, sz: int, segs: seq<Segment>, k: int)
    requires 0 <= k < |segs| && Loaded(r, root, sz, segs[..k]) && segs[k].readable && !segs[k].load
    ensures Loaded(r, root, sz, segs[..k + 1])
  {
    hide ByteAt;
    OneMore(segs, k);
  }

  lemma LoadedMore(r: Ram, root: int, sz: int, newsz: int, segs: seq<Segment>, k: int)
    requires 0 <= k < |segs| && SegmentsOk(segs[..k]) && EndOf(segs[..k]) == sz && segs[k].load
             && SegmentOk(segs[k], sz)
    requires Holding(r, root, newsz, segs[..k + 1])
               && newsz == if segs[k].vaddr + segs[k].memsz > sz then segs[k].vaddr + segs[k].memsz else sz
    ensures Loaded(r, root, newsz, segs[..k + 1])
  {
    hide Holding;
    OneMore(segs, k);
  }

  lemma EndMore(segs: seq<Segment>, k: int)
    requires 0 <= k < |segs|
    ensures var s := segs[k]; EndOf(segs[..k + 1]) == if s.load
              && s.vaddr + s.memsz > EndOf(segs[..k]) then s.vaddr + s.memsz else EndOf(segs[..k])
  {
    OneMore(segs, k);
  }

  /** One turn of exec's loop over the program headers.  sz' is the size to free if it fails. */
  method LoadOne(m: Memory, root: int, sz: int, segs: seq<Segment>, k: int) returns (ok: bool, sz': int)
    requires m.Kernel() && 0 <= k < |segs| && IsSegment(segs[k]) && Loaded(m.R(), root, sz, segs[..k])
    modifies m`mem, m`free, m`role
    ensures m.Kernel() && Others(old(m.R()), m.R(), root, {}) && 0 <= sz' && ProcTable(m.R(), root, Pages(sz'))
    ensures TopsKept(old(m.R()), m.R(), root)
    ensures ok ==> Loaded(m.R(), root, sz', segs[..k + 1]) && |old(m.free)| <= |m.free| + 3 * (Pages(sz') - Pages(sz))
    ensures !ok ==> !SegmentOk(segs[k], sz) || |old(m.free)| <= 3 * (Pages(EndOf(segs[..k + 1])) - Pages(sz))
  {
    hide Good, Pte, Valid, User, ByteAt, Others, ProcTable, AllUser, Loaded, Holding, SegmentsOk, EndOf, SegByte, Grown;
    hide Steps, Stored, Image, OtherSame, TopsKept;
    ghost var r := m.R();
    LoadedParts(r, root, sz, segs[..k]);
    EndMore(segs, k);
    var s := segs[k];
    if !s.readable {
      return false, sz;
    }
    if !s.load {
      SkipHolding(r, root, sz, segs, k);
      return true, sz;
    }
    if s.memsz < s.filesz {
      return false, sz;
    }
    if s.vaddr + s.memsz >= UINT64 {
      return false, sz;
    }
    sz' := m.Uvmalloc(root, sz, s.vaddr + s.memsz);
    ghost var r1 := m.R();
    AfterAlloc(r, r1, root, sz, s.vaddr + s.memsz, sz', segs[..k]);
    if sz' == 0 {
      return false, sz;
    }
    HoldingParts(r1, root, sz', segs[..k]);
    if s.vaddr % PGSIZE != 0 {
      return false, sz';
    }
    PagesHold(sz');
    ok := Loadseg(m, root, s.vaddr, s.filesz, s.bytes, Pages(sz'));
    StoredOthers(r, r1, m.R(), root, s.vaddr, if ok then s.bytes[..s.filesz] else s.bytes, Pages(sz'));
    if ok {
      StoredHolding(r1, m.R(), root, sz', segs, k);
      LoadedMore(m.R(), root, sz, sz', segs, k);
    }
  }

  lemma LoadedParts(r: Ram, root: int, sz: int, segs: seq<Segment>)
    requires Good(r) && Loaded(r, root, sz, segs)
    ensures 0 <= sz && ProcTable(r, root, Pages(sz)) && Image(r, root, Pages(sz)) && 0 <= Pages(sz) <= USER
            && Others(r, r, root, {}) && TopsKept(r, r, root)
    ensures IsRoot(r, root) && EndOf(segs) == sz && SegmentsOk(segs) && Holding(r, root, sz, segs)
  {
  }

  lemma HoldingParts(r: Ram, root: int, sz: int, segs: seq<Segment>)
    requires Holding(r, root, sz, segs)
    ensures 0 <= sz && ProcTable(r, root, Pages(sz)) && AllUser(r, root, Pages(sz))
  {
  }

  lemma PagesHold(sz: int)
    requires 0 <= sz
    ensures sz <= Pages(sz) * PGSIZE
  {
  }

  /** What uvmalloc's results mean for exec. */
  lemma AfterAlloc(r: Ram, r': Ram, root: int, sz: int, newsz: int, sz': int, segs: seq<Segment>)
    requires Good(r) && Loaded(r, root, sz, segs) && 0 <= newsz
    requires newsz < sz ==> sz' == sz && r' == r
    requires sz <= newsz ==> sz' == newsz || sz' == 0
    requires sz <= newsz && sz' == newsz ==>
               Pages(newsz) <= USER && Grown(r, r', root, Pages(sz), Pages(newsz)) && Image(r', root, Pages(newsz))
    requires sz <= newsz && sz' != newsz ==> Steps(r, r', root) && Image(r', root, Pages(sz))
    ensures Others(r, r', root, {}) && TopsKept(r, r', root)
    ensures sz' != 0 ==> Holding(r', root, sz', segs) && sz' == if newsz > sz then newsz else sz
    ensures sz' == 0 ==> ProcTable(r', root, Pages(sz))
  {
    hide Good, Pte, Valid, ByteAt, SegByte, EndOf, SegmentsOk;
    if newsz < sz {
      LoadedParts(r, root, sz, segs);
    } else if sz' == newsz {
      GrownLoaded(r, r', root, sz, newsz, segs);
      TopsSame(r, r', root, Pages(sz), Pages(newsz));
      if newsz == 0 {
        assert sz == 0;
      }
    } else {
      StepsTable(r, r', root, Pages(sz));
      TopsAll(r, r', root);
    }
  }

  lemma StoredOthers(r: Ram, r1: Ram, r2: Ram, root: int, dst: int, src: seq<int>, n: int)
    requires Others(r, r1, root, {}) && Stored(r1, r2, root, dst, src) && ProcTable(r1, root, n)
    requires TopsKept(r, r1, root)
    ensures Others(r, r2, root, {}) && ProcTable(r2, root, n) && TopsKept(r, r2, root)
  {
    TopsStored(r1, r2, root, dst, src);
    StoredTable(r1, r2, root, dst, src, n);
    OthersMore(r, r1, r2, root, {});
  }

  // ----- the user stack

  /** n pages of program, a page the user cannot access, and the stack page. */
  ghost predicate Stacked(r: Ram, root: int, n: int, segs: seq<Segment>) {
    && ProcTable(r, root, n + 2) && AllUser(r, root, n) && !UserPage(r, root, n) && UserPage(r, root, n + 1)
    && (forall a :: 0 <= a < n * PGSIZE ==> ByteAt(r, root, a) == SegByte(segs, a))
  }

  lemma GuardSet(r: Ram, r1: Ram, r2: Ram, root: int, sz: int, segs: seq<Segment>)
    requires Good(r) && Good(r1) && Loaded(r, root, sz, segs) && Grown(r, r1, root, Pages(sz), Pages(sz) + 2)
             && Image(r1, root, Pages(sz) + 2) && Pages(sz) + 2 <= USER
    requires IsRoot(r2, root) && OtherSame(r1, r2, root, Pages(sz), Pages(sz) + 1)
    requires Pte(r2, root, Pages(sz)) == WithoutU(Pte(r1, root, Pages(sz))) && !User(Pte(r2, root, Pages(sz)))
    ensures Stacked(r2, root, Pages(sz), segs)
  {
    hide Good, Pte, Ppn, ByteAt, SegByte, EndOf, SegmentsOk, NewPage, WithoutU, UserPage, Valid, User, ProcTable;
    hide Holding, Image;
    var n := Pages(sz);
    GuardTwo(r, r1, r2, root, sz, segs);
    GuardTable(r1, r2, root, n);
    GuardLow(r, r1, r2, root, sz, segs);
    forall v | 0 <= v < n ensures UserPage(r2, root, v) {
      assert v * PGSIZE / PGSIZE == v;
    }
    GuardTop(r1, r2, root, n);
    NotUser(r2, root, n);
  }

  lemma NotUser(r: Ram, root: int, v: int)
    requires !User(Pte(r, root, v))
    ensures !UserPage(r, root, v)
  {
  }

  /** The two pages added for the stack, of which the lower one becomes the guard page. */
  lemma GuardTwo(r: Ram, r1: Ram, r2: Ram, root: int, sz: int, segs: seq<Segment>)
    requires Loaded(r, root, sz, segs) && Grown(r, r1, root, Pages(sz), Pages(sz) + 2) && Image(r1, root, Pages(sz) + 2)
             && Pages(sz) + 2 <= USER
    requires IsRoot(r2, root) && Pte(r2, root, Pages(sz)) == WithoutU(Pte(r1, root, Pages(sz)))
    ensures 0 <= Pages(sz) && IsRoot(r1, root) && ProcTable(r1, root, Pages(sz) + 2) && NewPage(r1, root, Pages(sz) + 1)
    ensures Valid(Pte(r2, root, Pages(sz))) <==> Valid(Pte(r1, root, Pages(sz)))
  {
    hide ByteAt, SegByte, EndOf, SegmentsOk, WithoutU, Ppn;
    GrownTable(r, r1, root, Pages(sz), Pages(sz) + 2);
    assert NewPage(r1, root, Pages(sz)) && NewPage(r1, root, Pages(sz) + 1);
    WithoutUWeaker(Pte(r1, root, Pages(sz)));
  }

  lemma GuardTop(r1: Ram, r2: Ram, root: int, n: int)
    requires Good(r1) && IsRoot(r1, root) && 0 <= n && n + 2 <= USER && NewPage(r1, root, n + 1)
             && OtherSame(r1, r2, root, n, n + 1)
    ensures UserPage(r2, root, n + 1)
  {
    hide Good, Pte, Ppn, ByteAt, NewPage, UserPage;
    assert (n + 1) * PGSIZE / PGSIZE == n + 1;
    NewByte(r1, root, (n + 1) * PGSIZE);
    SameByte(r1, r2, root, (n + 1) * PGSIZE);
  }

  /** The pages below the guard page still hold the segments. */
  lemma GuardLow(r: Ram, r1: Ram, r2: Ram, root: int, sz: int, segs: seq<Segment>)
    requires Good(r) && Good(r1) && Loaded(r, root, sz, segs) && IsRoot(r1, root)
    requires Grown(r, r1, root, Pages(sz), Pages(sz) + 2) && OtherSame(r1, r2, root, Pages(sz), Pages(sz) + 1)
    ensures forall a ::
              0 <= a < Pages(sz) * PGSIZE ==> UserPage(r2, root, a / PGSIZE) && ByteAt(r2, root, a) == SegByte(segs, a)
  {
    hide Good, Pte, Ppn, ByteAt, SegByte, EndOf, SegmentsOk, NewPage, UserPage;
    forall a | 0 <= a < Pages(sz) * PGSIZE
      ensures UserPage(r2, root, a / PGSIZE) && ByteAt(r2, root, a) == SegByte(segs, a)
    {
      PagesCover(sz, a);
      SameByte(r, r1, root, a);
      SameByte(r1, r2, root, a);
    }
  }

  lemma GuardTable(r: Ram, r': Ram, root: int, n: int)
    requires ProcTable(r, root, n + 2) && 0 <= n && IsRoot(r', root) && OtherSame(r, r', root, n, n + 1)
    requires Valid(Pte(r', root, n)) <==> Valid(Pte(r, root, n))
    ensures ProcTable(r', root, n + 2)
  {
    hide Pte, Valid;
    forall v | 0 <= v < VPNS ensures Valid(Pte(r', root, v)) <==> Valid(Pte(r, root, v)) {
      if v != n {
        OneSame(r, r', root, n, v);
      }
    }
  }

  /** Two pages at the next page boundary, the first made inaccessible.  top is the end of the second. */
  method SetupStack(m: Memory, root: int, sz: int, ghost segs: seq<Segment>) returns (ok: bool, top: int)
    requires m.Kernel() && Loaded(m.R(), root, sz, segs)
    modifies m`mem, m`free, m`role
    ensures m.Kernel() && Others(old(m.R()), m.R(), root, {}) && TopsKept(old(m.R()), m.R(), root)
    ensures ok ==> top == (Pages(sz) + 2) * PGSIZE && Stacked(m.R(), root, Pages(sz), segs)
    ensures !ok ==> ProcTable(m.R(), root, Pages(sz)) && |old(m.free)| <= 6
  {
    hide Good, Pte, Valid, User, ByteAt, Others, ProcTable, Loaded, Grown, Steps, Image, OtherSame, Stacked, Node0;
    hide WithoutU, SegmentsOk, EndOf, TopsKept;
    ghost var r := m.R();
    LoadedParts(r, root, sz, segs);
    var base := Pages(sz) * PGSIZE;
    Rounded(sz);
    top := m.Uvmalloc(root, base, base + 2 * PGSIZE);
    ghost var r1 := m.R();
    if top == 0 {
      StepsTable(r, r1, root, Pages(sz));
      StepsOthers(r, r1, root);
      StepsTops(r, r1, root);
      return false, 0;
    }
    StackMapped(r, r1, root, Pages(sz));
    m.Uvmclear(root, (top - 2 * PGSIZE) / PGSIZE);
    OthersMore(r, r1, m.R(), root, {});
    TopsSame(r1, m.R(), root, Pages(sz), Pages(sz) + 1);
    TopsMore(r, r1, m.R(), root);
    GuardSet(r, r1, m.R(), root, sz, segs);
    ok := true;
  }

  lemma Rounded(sz: int)
    requires 0 <= sz
    ensures var base := Pages(sz) * PGSIZE;
            && 0 <= base && Pages(base) == Pages(sz) && Pages(base + 2 * PGSIZE) == Pages(sz) + 2
            && base / PGSIZE == Pages(sz)
  {
  }

  lemma StepsTops(r: Ram, r': Ram, root: int)
    requires Steps(r, r', root)
    ensures TopsKept(r, r', root)
  {
    TopsAll(r, r', root);
  }

  lemma StackMapped(r: Ram, r1: Ram, root: int, n: int)
    requires Grown(r, r1, root, n, n + 2) && 0 <= n && n + 2 <= USER
    ensures IsRoot(r1, root) && Others(r, r1, root, {}) && Node0(r1, root, n) != 0 && TopsKept(r, r1, root)
  {
    TopsSame(r, r1, root, n, n + 2);
    assert NewPage(r1, root, n);
  }

  // ----- arguments

  const MAXARG: int := 32

  function AlignDown(sp: int): int { sp - sp % 16 }

  /** The stack pointer after pushing the strings of argv. */
  function ArgSp(argv: seq<seq<int>>, top: int): int {
    if argv == [] then top else AlignDown(ArgSp(argv[..|argv| - 1], top) - (|argv[|argv| - 1]| + 1))
  }

  /** The stack pointer after pushing the vector of pointers too. */
  function VectorSp(argv: seq<seq<int>>, top: int): int {
    AlignDown(ArgSp(argv, top) - 8 * (|argv| + 1))
  }

  predicate ArgsFit(argv: seq<seq<int>>, top: int) {
    |argv| <= MAXARG && VectorSp(argv, top) >= top - PGSIZE
  }

  lemma {:induction false} ArgSpFalls(argv: seq<seq<int>>, top: int, k: int)
    requires 0 <= k <= |argv|
    ensures ArgSp(argv, top) <= ArgSp(argv[..k], top) <= top
  {
    if argv == [] {
    } else if k == |argv| {
      assert argv[..k] == argv;
      ArgSpFalls(argv[..|argv| - 1], top, |argv| - 1);
    } else {
      ArgSpFalls(argv[..|argv| - 1], top, k);
      assert argv[..|argv| - 1][..k] == argv[..k];
    }
  }

  lemma ArgSpMore(argv: seq<seq<int>>, top: int, k: int)
    requires 0 <= k < |argv|
    ensures ArgSp(argv[..k + 1], top) == AlignDown(ArgSp(argv[..k], top) - (|argv[k]| + 1))
  {
    assert argv[..k + 1][..k] == argv[..k];
  }

  /** A string with its terminating 0. */
  ghost predicate StringAt(r: Ram, root: int, p: int, s: seq<int>) {
    forall j :: p <= j <= p + |s| ==> ByteAt(r, root, j) == (s + [0])[j - p]
  }

  /** The strings of argv lie at ptrs, above sp and below top, one below the other. */
  ghost predicate StringsAt(r: Ram, root: int, argv: seq<seq<int>>, ptrs: seq<int>, sp: int, top: int) {
    && |ptrs| == |argv|
    && (forall i :: 0 <= i < |argv| ==>
          sp <= ptrs[i] && ptrs[i] % 16 == 0 && ptrs[i] + |argv[i]| + 1 <= top && StringAt(r, root, ptrs[i], argv[i]))
  }

  lemma StringKept(r: Ram, r': Ram, root: int, dst: int, src: seq<int>, p: int, s: seq<int>)
    requires Stored(r, r', root, dst, src) && StringAt(r, root, p, s) && dst + |src| <= p
    ensures StringAt(r', root, p, s)
  {
    hide Pte, ByteAt, Others;
    forall j | p <= j <= p + |s| ensures ByteAt(r', root, j) == (s + [0])[j - p] {
      assert ByteAt(r', root, j) == ByteAt(r, root, j);
    }
  }

  lemma StringNew(r: Ram, r': Ram, root: int, dst: int, s: seq<int>)
    requires Stored(r, r', root, dst, s + [0])
    ensures StringAt(r', root, dst, s)
  {
  }

  /** Addresses in the stack page are the user's, so copyout cannot fail there. */
  lemma StackUser(r: Ram, root: int, n: int, segs: seq<Segment>, a: int)
    requires Stacked(r, root, n, segs) && (n + 1) * PGSIZE <= a < (n + 2) * PGSIZE
    ensures UserPage(r, root, a / PGSIZE)
  {
    assert a / PGSIZE == n + 1;
  }

  lemma StackedKept(r: Ram, r': Ram, root: int, n: int, segs: seq<Segment>, dst: int, src: seq<int>)
    requires Good(r) && Stacked(r, root, n, segs) && Stored(r, r', root, dst, src) && n * PGSIZE <= dst && 0 <= n
    ensures Stacked(r', root, n, segs) && Others(r, r', root, {})
  {
    hide ByteAt, Valid, User;
    StoredTable(r, r', root, dst, src, n + 2);
    forall v | 0 <= v < n + 2 ensures UserPage(r', root, v) <==> UserPage(r, root, v) {
      StoredUser(r, r', root, dst, src, v);
    }
    forall a | 0 <= a < n * PGSIZE ensures ByteAt(r', root, a) == SegByte(segs, a) {
      assert ByteAt(r', root, a) == ByteAt(r, root, a);
    }
  }

  /** copyout of bytes that end at or below the top of the stack. */
  method Push(m: Memory, root: int, sp: int, src: seq<int>, ghost n: int, ghost segs: seq<Segment>)
    requires m.Kernel() && Stacked(m.R(), root, n, segs) && 0 <= n && (n + 1) * PGSIZE <= sp
             && sp + |src| <= (n + 2) * PGSIZE
    modifies m`mem, m`free, m`role
    ensures m.Kernel() && Stacked(m.R(), root, n, segs) && Stored(old(m.R()), m.R(), root, sp, src)
  {
    hide Good, Pte, Valid, User, ByteAt, Others, Stacked, Stored, UserPage;
    ghost var r := m.R();
    StackedRoot(r, root, n, segs);
    ghost var k;
    var ok;
    ok, k := m.Copyout(root, sp, src);
    if !ok {
      StackUser(r, root, n, segs, sp + k);
      assert false;
    }
    assert src[..k] == src;
    StackedKept(r, m.R(), root, n, segs, sp, src);
  }

  lemma StackedRoot(r: Ram, root: int, n: int, segs: seq<Segment>)
    requires Stacked(r, root, n, segs)
    ensures IsRoot(r, root)
  {
  }

  lemma StringsMore(r: Ram, r': Ram, root: int, argv: seq<seq<int>>, k: int, ptrs: seq<int>, sp: int, sp': int,
        top: int)
    requires 0 <= k < |argv| && StringsAt(r, root, argv[..k], ptrs, sp, top) && Stored(r, r', root, sp', argv[k] + [0])
    requires sp' + |argv[k]| + 1 <= sp <= top && sp' % 16 == 0
    ensures StringsAt(r', root, argv[..k + 1], ptrs + [sp'], sp', top)
  {
    hide Stored, StringAt;
    forall i | 0 <= i < k + 1
      ensures sp' <= (ptrs + [sp'])[i] && (ptrs + [sp'])[i] % 16 == 0
              && (ptrs + [sp'])[i] + |argv[..k + 1][i]| + 1 <= top
      ensures StringAt(r', root, (ptrs + [sp'])[i], argv[..k + 1][i])
    {
      if i < k {
        assert argv[..k][i] == argv[i];
        StringKept(r, r', root, sp', argv[k] + [0], ptrs[i], argv[i]);
      } else {
        StringNew(r, r', root, sp', argv[k]);
      }
    }
  }

  /** Push the argument strings; it fails exactly when they do not fit. */
  method PushStrings(m: Memory, root: int, argv: seq<seq<int>>, top: int, ghost n: int, ghost segs: seq<Segment>)
    returns (ok: bool, sp: int, ptrs: seq<int>)
    requires m.Kernel() && Stacked(m.R(), root, n, segs) && 0 <= n && top == (n + 2) * PGSIZE
    modifies m`mem, m`free, m`role
    ensures m.Kernel() && Stacked(m.R(), root, n, segs) && Others(old(m.R()), m.R(), root, {})
    ensures TopsKept(old(m.R()), m.R(), root)
    ensures ok <==> |argv| <= MAXARG && ArgSp(argv, top) >= top - PGSIZE
    ensures ok ==> sp == ArgSp(argv, top) <= top && StringsAt(m.R(), root, argv, ptrs, sp, top)
  {
    hide Good, Pte, Valid, User, ByteAt, Others, Stacked, Stored, UserPage, ArgSp, StringsAt, StringAt, AlignDown;
    hide TopsKept;
    ghost var r := m.R();
    SelfOthers(r, root);
    sp, ptrs := top, [];
    NoStrings(r, root, argv, top);
    var argc := 0;
    while argc < |argv|
      invariant 0 <= argc <= |argv| && argc <= MAXARG && m.Kernel() && Stacked(m.R(), root, n, segs)
                && Others(r, m.R(), root, {}) && TopsKept(r, m.R(), root)
      invariant sp == ArgSp(argv[..argc], top) && top - PGSIZE <= sp <= top
      invariant StringsAt(m.R(), root, argv[..argc], ptrs, sp, top)
    {
      ghost var r1 := m.R();
      ghost var sp0 := sp;
      if argc >= MAXARG {
        return false, sp, ptrs;
      }
      ArgSpMore(argv, top, argc);
      ArgSpFalls(argv, top, argc + 1);
      Aligned(sp - (|argv[argc]| + 1));
      sp := AlignDown(sp - (|argv[argc]| + 1));
      if sp < top - PGSIZE {
        return false, sp, ptrs;
      }
      Push(m, root, sp, argv[argc] + [0], n, segs);
      PushOthers(r, r1, m.R(), root, sp, argv[argc] + [0]);
      StringsMore(r1, m.R(), root, argv, argc, ptrs, sp0, sp, top);
      ptrs := ptrs + [sp];
      argc := argc + 1;
    }
    assert argv[..argc] == argv;
    ok := true;
  }

  lemma SelfOthers(r: Ram, root: int)
    requires Good(r)
    ensures Others(r, r, root, {}) && TopsKept(r, r, root)
  {
  }

  lemma NoStrings(r: Ram, root: int, argv: seq<seq<int>>, top: int)
    ensures ArgSp(argv[..0], top) == top && StringsAt(r, root, argv[..0], [], top, top)
  {
  }

  lemma Aligned(sp: int)
    ensures AlignDown(sp) % 16 == 0 && sp - 16 < AlignDown(sp) <= sp
  {
  }

  lemma PushOthers(r: Ram, r1: Ram, r2: Ram, root: int, dst: int, src: seq<int>)
    requires Others(r, r1, root, {}) && Stored(r1, r2, root, dst, src) && TopsKept(r, r1, root)
    ensures Others(r, r2, root, {}) && TopsKept(r, r2, root)
  {
    TopsStored(r1, r2, root, dst, src);
    OthersMore(r, r1, r2, root, {});
  }

  // ----- the vector of argument pointers

  /** p in n bytes, low byte first. */
  function Encoded(p: int, n: nat): (s: seq<int>)
    ensures |s| == n
    decreases n
  {
    if n == 0 then [] else [p % 256] + Encoded(p / 256, n - 1)
  }

  /** The n-byte number at address a, low byte first. */
  ghost function WordAt(r: Ram, root: int, a: int, n: nat): int
    decreases n
  {
    if n == 0 then 0 else ByteAt(r, root, a) + 256 * WordAt(r, root, a + 1, n - 1)
  }

  function Limit(n: nat): int { if n == 0 then 1 else 256 * Limit(n - 1) }

  lemma LimitMore(p: int, n: nat)
    requires 0 <= p < Limit(n)
    ensures n == 0 ==> p == 0
    ensures n > 0 ==> 0 <= p / 256 < Limit(n - 1)
  {
  }

  lemma {:induction false} WordRead(r: Ram, root: int, a: int, p: int, n: nat)
    requires 0 <= p < Limit(n) && forall j :: a <= j < a + n ==> ByteAt(r, root, j) == Encoded(p, n)[j - a]
    ensures WordAt(r, root, a, n) == p
    decreases n
  {
    hide ByteAt, Limit;
    LimitMore(p, n);
    if n > 0 {
      assert ByteAt(r, root, a) == Encoded(p, n)[0] == p % 256;
      forall j | a + 1 <= j < a + n ensures ByteAt(r, root, j) == Encoded(p / 256, n - 1)[j - (a + 1)] {
        assert ByteAt(r, root, j) == Encoded(p, n)[j - a];
      }
      WordRead(r, root, a + 1, p / 256, n - 1);
    }
  }

  lemma LimitEight()
    ensures Limit(8) == UINT64
  {
    assert Limit(2) == 0x1_0000;
    assert Limit(4) == 0x1_0000_0000;
    assert Limit(6) == 0x1_0000_0000_0000;
  }

  /** The bytes of the numbers in ptrs, eight each. */
  function Flat(ptrs: seq<int>): (s: seq<int>)
    ensures |s| == 8 * |ptrs|
  {
    if ptrs == [] then [] else Flat(ptrs[..|ptrs| - 1]) + Encoded(ptrs[|ptrs| - 1], 8)
  }

  lemma {:induction false} FlatAt(ptrs: seq<int>, i: int, j: int)
    requires 0 <= i < |ptrs| && 0 <= j < 8
    ensures Flat(ptrs)[8 * i + j] == Encoded(ptrs[i], 8)[j]
  {
    hide Encoded;
    if i < |ptrs| - 1 {
      FlatAt(ptrs[..|ptrs| - 1], i, j);
    }
  }

  /** The words at sp are the pointers and a final 0. */
  ghost predicate VectorAt(r: Ram, root: int, sp: int, ptrs: seq<int>) {
    forall i :: 0 <= i <= |ptrs| ==> PointerAt(r, root, sp, ptrs + [0], i)
  }

  ghost predicate PointerAt(r: Ram, root: int, sp: int, ptrs: seq<int>, i: int)
    requires 0 <= i < |ptrs|
  {
    WordAt(r, root, sp + 8 * i, 8) == ptrs[i]
  }

  lemma {:induction false} VectorWord(r: Ram, root: int, sp: int, all: seq<int>, i: int, a: int)
    requires forall j :: sp <= j < sp + 8 * |all| ==> ByteAt(r, root, j) == Flat(all)[j - sp]
    requires 0 <= i < |all| && 0 <= all[i] < UINT64 && a == sp + 8 * i
    ensures WordAt(r, root, a, 8) == all[i]
  {
    LimitEight();
    hide ByteAt, Encoded, Flat, WordAt, Limit;
    forall j | a <= j < a + 8 ensures ByteAt(r, root, j) == Encoded(all[i], 8)[j - a] {
      FlatAt(all, i, j - a);
      assert ByteAt(r, root, j) == Flat(all)[j - sp];
      assert j - sp == 8 * i + (j - a);
    }
    WordRead(r, root, a, all[i], 8);
  }

  lemma {:induction false} VectorStored(r: Ram, r': Ram, root: int, sp: int, ptrs: seq<int>)
    requires Stored(r, r', root, sp, Flat(ptrs + [0])) && forall i :: 0 <= i < |ptrs| ==> 0 <= ptrs[i] < UINT64
    ensures VectorAt(r', root, sp, ptrs)
  {
    hide Stored, ByteAt, Flat, WordAt;
    var all := ptrs + [0];
    StoredBytes(r, r', root, sp, Flat(all));
    forall i | 0 <= i <= |ptrs| ensures PointerAt(r', root, sp, ptrs + [0], i) {
      VectorWord(r', root, sp, all, i, sp + 8 * i);
    }
  }

  lemma StoredBytes(r: Ram, r': Ram, root: int, dst: int, src: seq<int>)
    requires Stored(r, r', root, dst, src)
    ensures forall j :: dst <= j < dst + |src| ==> ByteAt(r', root, j) == src[j - dst]
  {
  }

  lemma StringsKept(r: Ram, r': Ram, root: int, argv: seq<seq<int>>, ptrs: seq<int>, sp: int, top: int, dst: int,
        src: seq<int>)
    requires StringsAt(r, root, argv, ptrs, sp, top) && Stored(r, r', root, dst, src) && dst + |src| <= sp
    ensures StringsAt(r', root, argv, ptrs, sp, top)
  {
    hide Stored, StringAt;
    forall i | 0 <= i < |argv| ensures StringAt(r', root, ptrs[i], argv[i]) {
      StringKept(r, r', root, dst, src, ptrs[i], argv[i]);
    }
  }

  /** The new program's view of its memory: n pages as its headers say, an inaccessible page, and a stack with
      the argument strings and, at sp, the vector of pointers to them. */
  ghost predicate Launchable(r: Ram, root: int, n: int, segs: seq<Segment>, argv: seq<seq<int>>, ptrs: seq<int>,
        sp: int) {
    && Stacked(r, root, n, segs) && sp % 16 == 0 && (n + 1) * PGSIZE <= sp
    && StringsAt(r, root, argv, ptrs, sp + 8 * (|argv| + 1), (n + 2) * PGSIZE) && VectorAt(r, root, sp, ptrs)
  }

  lemma StringsFrom(r: Ram, root: int, argv: seq<seq<int>>, ptrs: seq<int>, sp: int, sp': int, top: int)
    requires StringsAt(r, root, argv, ptrs, sp, top) && sp' <= sp
    ensures StringsAt(r, root, argv, ptrs, sp', top)
  {
  }

  lemma PointersSmall(r: Ram, root: int, argv: seq<seq<int>>, ptrs: seq<int>, sp: int, top: int)
    requires StringsAt(r, root, argv, ptrs, sp, top) && 0 <= sp && top <= UINT64
    ensures |ptrs| == |argv| && forall i :: 0 <= i < |ptrs| ==> 0 <= ptrs[i] < UINT64
  {
  }

  /** Push the arguments: strings, then the vector.  It fails exactly when they do not fit the stack page. */
  method PushArgs(m: Memory, root: int, argv: seq<seq<int>>, top: int, ghost n: int, ghost segs: seq<Segment>)
    returns (ok: bool, sp: int, ghost ptrs: seq<int>)
    requires m.Kernel() && Stacked(m.R(), root, n, segs) && 0 <= n && top == (n + 2) * PGSIZE
    modifies m`mem, m`free, m`role
    ensures m.Kernel() && Stacked(m.R(), root, n, segs) && Others(old(m.R()), m.R(), root, {})
    ensures TopsKept(old(m.R()), m.R(), root)
    ensures ok <==> ArgsFit(argv, top)
    ensures ok ==> sp == VectorSp(argv, top) && Launchable(m.R(), root, n, segs, argv, ptrs, sp)
  {
    hide Good, Pte, Valid, User, ByteAt, Others, Stacked, Stored, UserPage, ArgSp, StringsAt, StringAt, AlignDown;
    hide VectorAt, Flat, ProcTable, TopsKept;
    ghost var r := m.R();
    var ustack;
    ok, sp, ustack := PushStrings(m, root, argv, top, n, segs);
    ptrs := ustack;
    Aligned(ArgSp(argv, top) - 8 * (|argv| + 1));
    if !ok {
      return;
    }
    ghost var r1 := m.R();
    ghost var sp0 := sp;
    TopSmall(r1, root, n, segs);
    PointersSmall(r1, root, argv, ptrs, sp, top);
    sp := AlignDown(sp - 8 * (|argv| + 1));
    if sp < top - PGSIZE {
      return false, sp, ptrs;
    }
    Push(m, root, sp, Flat(ustack + [0]), n, segs);
    PushOthers(r, r1, m.R(), root, sp, Flat(ptrs + [0]));
    VectorStored(r1, m.R(), root, sp, ptrs);
    StringsKept(r1, m.R(), root, argv, ptrs, sp0, top, sp, Flat(ptrs + [0]));
    StringsFrom(m.R(), root, argv, ptrs, sp0, sp + 8 * (|argv| + 1), top);
  }

  lemma TopSmall(r: Ram, root: int, n: int, segs: seq<Segment>)
    requires Stacked(r, root, n, segs)
    ensures (n + 2) * PGSIZE <= MAXVA
  {
  }

  // ----- exec

  /** What exec finds at the path: nothing, no readable ELF header, or a program. */
  datatype Program = Program(found: bool, header: bool, entry: int, segs: seq<Segment>)

  ghost predicate ProgramOk(prog: Program) {
    prog.found && prog.header && SegmentsOk(prog.segs)
  }

  lemma {:induction false} PrefixOk(segs: seq<Segment>, k: int)
    requires 0 <= k <= |segs| && SegmentsOk(segs)
    ensures SegmentsOk(segs[..k]) && EndOf(segs[..k]) <= EndOf(segs)
    ensures k < |segs| ==> SegmentOk(segs[k], EndOf(segs[..k]))
  {
    if k == |segs| {
      assert segs[..k] == segs;
    } else {
      PrefixOk(segs[..|segs| - 1], k);
      assert segs[..|segs| - 1][..k] == segs[..k];
      if k == |segs| - 1 {
        assert segs[..|segs| - 1] == segs[..k];
      }
    }
  }

  lemma PagesGrow(a: int, b: int)
    requires a <= b
    ensures Pages(a) <= Pages(b)
  {
  }

  /** The loop over the program headers. */
  method LoadAll(m: Memory, root: int, segs: seq<Segment>) returns (ok: bool, sz: int)
    requires m.Kernel() && ProcTable(m.R(), root, 0) && forall k :: 0 <= k < |segs| ==> IsSegment(segs[k])
    modifies m`mem, m`free, m`role
    ensures m.Kernel() && Others(old(m.R()), m.R(), root, {}) && 0 <= sz && ProcTable(m.R(), root, Pages(sz))
    ensures TopsKept(old(m.R()), m.R(), root)
    ensures ok ==> Loaded(m.R(), root, sz, segs) && |old(m.free)| <= |m.free| + 3 * Pages(sz)
    ensures !ok ==> !SegmentsOk(segs) || |old(m.free)| <= 3 * Pages(EndOf(segs))
  {
    hide Good, Others, ProcTable, Loaded, SegmentsOk, EndOf, SegmentOk, TopsKept;
    ghost var r := m.R();
    SelfOthers(r, root);
    LoadedNone(r, root, segs);
    sz := 0;
    var i := 0;
    while i < |segs|
      invariant 0 <= i <= |segs| && m.Kernel() && Others(r, m.R(), root, {}) && Loaded(m.R(), root, sz, segs[..i])
      invariant |r.free| <= |m.free| + 3 * Pages(sz) && TopsKept(r, m.R(), root)
    {
      ghost var r1 := m.R();
      LoadedParts(r1, root, sz, segs[..i]);
      var sz1;
      ghost var sz0 := sz;
      ok, sz1 := LoadOne(m, root, sz, segs, i);
      sz := sz1;
      OthersMore(r, r1, m.R(), root, {});
      TopsMore(r, r1, m.R(), root);
      if !ok {
        BadHeader(segs, i, sz0);
        return;
      }
      i := i + 1;
    }
    assert segs[..i] == segs;
    LoadedParts(m.R(), root, sz, segs);
    ok := true;
  }

  lemma LoadedNone(r: Ram, root: int, segs: seq<Segment>)
    requires ProcTable(r, root, 0)
    ensures Loaded(r, root, 0, segs[..0])
  {
  }

  lemma BadHeader(segs: seq<Segment>, i: int, sz: int)
    requires 0 <= i < |segs| && EndOf(segs[..i]) == sz
    ensures SegmentsOk(segs) ==> SegmentOk(segs[i], sz) && Pages(EndOf(segs[..i + 1])) <= Pages(EndOf(segs))
  {
    if SegmentsOk(segs) {
      PrefixOk(segs, i);
      PrefixOk(segs, i + 1);
      PagesGrow(EndOf(segs[..i + 1]), EndOf(segs));
    }
  }

  lemma AllBytes(r: Ram, r': Ram, root: int, a: int)
    requires Good(r) && IsRoot(r, root) && AllSame(r, r', root)
    ensures ByteAt(r', root, a) == ByteAt(r, root, a)
    ensures UserPage(r', root, a / PGSIZE) <==> UserPage(r, root, a / PGSIZE)
  {
    var v := a / PGSIZE;
    if 0 <= v < VPNS {
      assert Same(r, r', root, v);
      if UserPage(r, root, v) {
        MappedLeaf(r, root, v);
      }
    }
  }

  lemma {:induction false} WordKept(r: Ram, r': Ram, root: int, a: int, n: nat)
    requires Good(r) && IsRoot(r, root) && AllSame(r, r', root)
    ensures WordAt(r', root, a, n) == WordAt(r, root, a, n)
    decreases n
  {
    hide Good, ByteAt, AllSame;
    if n > 0 {
      AllBytes(r, r', root, a);
      WordKept(r, r', root, a + 1, n - 1);
    }
  }

  lemma {:induction false} StackedStill(r: Ram, r': Ram, root: int, n: int, segs: seq<Segment>)
    requires Good(r) && IsRoot(r', root) && Stacked(r, root, n, segs) && AllSame(r, r', root) && 0 <= n
    ensures Stacked(r', root, n, segs)
  {
    hide Good, ByteAt, Valid, UserPage, SegByte;
    forall v | 0 <= v < VPNS
      ensures Pte(r', root, v) == Pte(r, root, v) && (UserPage(r', root, v) <==> UserPage(r, root, v))
    {
      assert v * PGSIZE / PGSIZE == v;
      AllBytes(r, r', root, v * PGSIZE);
      assert Same(r, r', root, v);
    }
    hide Pte;
    forall a | 0 <= a < n * PGSIZE ensures ByteAt(r', root, a) == SegByte(segs, a) {
      AllBytes(r, r', root, a);
    }
  }

  lemma {:induction false} LaunchKept(r: Ram, r': Ram, root: int, n: int, segs: seq<Segment>, argv: seq<seq<int>>,
    ptrs: seq<int>, sp: int)
    requires Good(r) && IsRoot(r, root) && IsRoot(r', root) && AllSame(r, r', root) && 0 <= n
             && Launchable(r, root, n, segs, argv, ptrs, sp)
    ensures Launchable(r', root, n, segs, argv, ptrs, sp)
  {
    hide Good, ByteAt, Stacked, AllSame, WordAt;
    StackedStill(r, r', root, n, segs);
    forall i | 0 <= i < |argv| ensures StringAt(r', root, ptrs[i], argv[i]) {
      assert StringAt(r, root, ptrs[i], argv[i]);
      forall j | ptrs[i] <= j <= ptrs[i] + |argv[i]| ensures ByteAt(r', root, j) == (argv[i] + [0])[j - ptrs[i]] {
        AllBytes(r, r', root, j);
      }
    }
    forall i | 0 <= i <= |ptrs| ensures PointerAt(r', root, sp, ptrs + [0], i) {
      assert PointerAt(r, root, sp, ptrs + [0], i);
      WordKept(r, r', root, sp + 8 * i, 8);
    }
  }

  /** Only free pages and pages of the two tables differ between r and r'. */
  ghost predicate Replaced(r: Ram, r': Ram, was: int, now: int) {
    && r'.role.Keys == r.role.Keys && r.mem.Keys == r.role.Keys && r'.mem.Keys == r.role.Keys
    && (forall p :: p in r.role && !Mine(r.role[p], was) ==> r'.role[p] == r.role[p] && r'.mem[p] == r.mem[p])
    && (forall p :: p in r.role && !Mine(r'.role[p], now) ==> r'.role[p] == r.role[p] && r'.mem[p] == r.mem[p])
  }

  lemma ReplacedBy(r: Ram, r1: Ram, r2: Ram, was: int, now: int)
    requires Others(r, r1, now, {}) && Others(r1, r2, was, {}) && NoneOf(r, now) && NoneOf(r2, was) && was != now
    ensures Replaced(r, r2, was, now)
  {
  }

  /** A process's size is bounded by physical memory. */
  lemma SizeBound(r: Ram, root: int, sz: int)
    requires Good(r) && ProcTable(r, root, Pages(sz)) && 0 <= sz && forall p :: p in r.role ==> KERNBASE <= p < PHYSTOP
    ensures sz <= (PHYSTOP - KERNBASE) * PGSIZE && IsRoot(r, root) && Image(r, root, Pages(sz)) && Pages(sz) <= USER
  {
    PoolBound(r, root, Pages(sz));
    PagesHold(sz);
  }

  lemma GrownOthers(r: Ram, r': Ram, root: int, lo: int, hi: int)
    requires Grown(r, r', root, lo, hi) && hi <= USER
    ensures Others(r, r', root, {}) && TopsKept(r, r', root)
  {
    TopsSame(r, r', root, lo, hi);
  }

  lemma MappedBelow(r: Ram, root: int, lo: int, n: int)
    requires ProcTable(r, root, n) && 0 <= lo
    ensures forall v :: lo <= v < n ==> Valid(Pte(r, root, v))
  {
  }

  lemma ShrunkTable(r: Ram, r': Ram, root: int, newsz: int, sz: int)
    requires 0 <= newsz < sz && ProcTable(r, root, Pages(sz)) && UnmapDone(r, r', root, Pages(newsz), Pages(sz))
    ensures ProcTable(r', root, Pages(newsz)) && Others(r, r', root, {}) && TopsKept(r, r', root)
  {
    TopsSame(r, r', root, Pages(newsz), Pages(sz));
    hide Pte;
    ZeroInvalid();
    PagesGrow(newsz, sz);
    forall v | 0 <= v < VPNS
      ensures Valid(Pte(r', root, v)) <==> Valid(Pte(r, root, v)) && !(Pages(newsz) <= v < Pages(sz))
    {
      if !(Pages(newsz) <= v < Pages(sz)) {
        assert Same(r, r', root, v);
      }
    }
  }

  class Process {
    const m: Memory
    const trampoline: int
    const trapframe: int
    var pagetable: int
    var sz: int
    var epc: int
    var sp: int
    var a1: int

    ghost predicate Valid()
      reads this, m
    {
      && m.Kernel() && 0 <= sz && ProcTable(m.R(), pagetable, Pages(sz))
      && Fixed(m.R(), pagetable, trampoline, trapframe)
    }

    constructor (m: Memory, trampoline: int, trapframe: int, pagetable: int)
      requires m.Kernel() && ProcTable(m.R(), pagetable, 0) && Fixed(m.R(), pagetable, trampoline, trapframe)
      ensures Valid() && this.m == m && this.trampoline == trampoline && this.trapframe == trapframe
      ensures this.pagetable == pagetable && sz == 0
    {
      this.m, this.trampoline, this.trapframe, this.pagetable := m, trampoline, trapframe, pagetable;
      sz, epc, sp, a1 := 0, 0, 0, 0;
    }

    /** Give the new table back. */
    method Bad(ghost r: Ram, root: int, size: int)
      requires m.Kernel() && NoneOf(r, root) && Others(r, m.R(), root, {}) && 0 <= size
               && ProcTable(m.R(), root, Pages(size))
      modifies m`mem, m`free, m`role
      ensures m.Kernel() && RolesKept(r, m.R())
    {
      hide Good, NoneOf, Others, ProcTable;
      ghost var r1 := m.R();
      ProcFreepagetable(m, root, size);
      OthersMore(r, r1, m.R(), root, {});
      RolesBack(r, m.R(), root);
    }

    /** Build the new image; root is 0 if that failed. */
    method Build(prog: Program, argv: seq<seq<int>>) returns (root: int, size: int, sp1: int, ghost ptrs: seq<int>)
      requires m.Kernel() && forall k :: 0 <= k < |prog.segs| ==> IsSegment(prog.segs[k])
      modifies m`mem, m`free, m`role
      ensures m.Kernel()
      ensures root == 0 ==> RolesKept(old(m.R()), m.R())
      ensures var n := Pages(EndOf(prog.segs)); root == 0 ==>
                !ProgramOk(prog) || !ArgsFit(argv, (n + 2) * PGSIZE) || |old(m.free)| <= TABLE_PAGES + 3 * (n + 2)
      ensures var n := Pages(EndOf(prog.segs)); root != 0 ==>
                && ProgramOk(prog) && ArgsFit(argv, (n + 2) * PGSIZE) && 0 <= n && size == (n + 2) * PGSIZE
                && sp1 == VectorSp(argv, size)
                && NoneOf(old(m.R()), root) && Others(old(m.R()), m.R(), root, {})
                && Launchable(m.R(), root, n, prog.segs, argv, ptrs, sp1)
                && Fixed(m.R(), root, trampoline, trapframe)
    {
      hide Good, NoneOf, Others, ProcTable, Loaded, SegmentsOk, EndOf, Stacked, Launchable, ArgsFit, RolesKept, Pte;
      hide TopsKept, Make;
      ghost var r := m.R();
      size, sp1, ptrs := 0, 0, [];
      KeptSelf(r);
      if !prog.found || !prog.header {
        return 0, 0, 0, [];
      }
      root := ProcPagetable(m, trampoline, trapframe);
      if root == 0 {
        EndPositive(prog.segs);
        return;
      }
      ghost var r1 := m.R();
      var ok;
      ok, size := LoadAll(m, root, prog.segs);
      ghost var r2 := m.R();
      OthersMore(r, r1, r2, root, {});
      FixedKept(r1, r2, root, trampoline, trapframe);
      if !ok {
        Bad(r, root, size);
        return 0, 0, 0, [];
      }
      LoadedParts(r2, root, size, prog.segs);
      ghost var n := Pages(size);
      var top;
      ok, top := SetupStack(m, root, size, prog.segs);
      ghost var r3 := m.R();
      OthersMore(r, r2, r3, root, {});
      FixedKept(r2, r3, root, trampoline, trapframe);
      if !ok {
        Bad(r, root, size);
        return 0, 0, 0, [];
      }
      ok, sp1, ptrs := PushArgs(m, root, argv, top, n, prog.segs);
      OthersMore(r, r3, m.R(), root, {});
      FixedKept(r3, m.R(), root, trampoline, trapframe);
      size := top;
      if !ok {
        StackedTable(m.R(), root, n, prog.segs);
        Bad(r, root, size);
        return 0, 0, 0, [];
      }
    }

    lemma EndPositive(segs: seq<Segment>)
      ensures 0 <= Pages(EndOf(segs)) 
    {
      if segs != [] {
        EndPositive(segs[..|segs| - 1]);
      }
    }

    lemma StackedTable(r: Ram, root: int, n: int, segs: seq<Segment>)
      requires Stacked(r, root, n, segs) && 0 <= n
      ensures ProcTable(r, root, Pages((n + 2) * PGSIZE)) && 0 <= (n + 2) * PGSIZE
    {
    }

    /** Replace the process's image, or fail and leave the image and the page pool as they were. */
    method Exec(prog: Program, argv: seq<seq<int>>) returns (r: int, ghost ptrs: seq<int>)
      requires Valid() && forall k :: 0 <= k < |prog.segs| ==> IsSegment(prog.segs[k])
      modifies this`pagetable, this`sz, this`epc, this`sp, this`a1, m`mem, m`free, m`role
      ensures Valid()
      ensures r == -1 ==>
                pagetable == old(pagetable) && sz == old(sz) && epc == old(epc) && sp == old(sp) && a1 == old(a1)
      ensures r == -1 ==> RolesKept(old(m.R()), m.R())
      ensures var n := Pages(EndOf(prog.segs)); r == -1 ==>
                !ProgramOk(prog) || !ArgsFit(argv, (n + 2) * PGSIZE) || |old(m.free)| <= TABLE_PAGES + 3 * (n + 2)
      ensures var n := Pages(EndOf(prog.segs)); r != -1 ==>
                && r == |argv| && ProgramOk(prog) && ArgsFit(argv, (n + 2) * PGSIZE)
                && sz == (n + 2) * PGSIZE && epc == prog.entry && a1 == sp == VectorSp(argv, sz)
                && Launchable(m.R(), pagetable, n, prog.segs, argv, ptrs, sp)
                && NoneOf(m.R(), old(pagetable)) && Replaced(old(m.R()), m.R(), old(pagetable), pagetable)
    {
      hide Good, NoneOf, Others, ProcTable, SegmentsOk, EndOf, Stacked, ArgsFit, RolesKept, Launchable, AllSame;
      hide Replaced, Fixed, TopsKept;
      ghost var r0 := m.R();
      var root, size, sp1;
      root, size, sp1, ptrs := Build(prog, argv);
      if root == 0 {
        OldKept(r0, m.R(), pagetable, Pages(sz));
        FixedKept(r0, m.R(), pagetable, trampoline, trapframe);
        return -1, [];
      }
      ghost var r1 := m.R();
      ghost var n := Pages(EndOf(prog.segs));
      LaunchTable(r1, root, n, prog.segs, argv, ptrs, sp1);
      OldStill(r0, r1, root, pagetable, Pages(sz));
      var was, wasSize := pagetable, sz;
      pagetable, sz, epc, sp, a1 := root, size, prog.entry, sp1, sp1;
      ProcFreepagetable(m, was, wasSize);
      ParentSame(r1, m.R(), was, root);
      TopsAll(r1, m.R(), root);
      FixedKept(r1, m.R(), root, trampoline, trapframe);
      LaunchKept(r1, m.R(), root, n, prog.segs, argv, ptrs, sp1);
      LaunchTable(m.R(), root, n, prog.segs, argv, ptrs, sp1);
      ReplacedBy(r0, r1, m.R(), was, root);
      r := |argv|;
    }

    lemma LaunchTable(r: Ram, root: int, n: int, segs: seq<Segment>, argv: seq<seq<int>>, ptrs: seq<int>, sp: int)
      requires Launchable(r, root, n, segs, argv, ptrs, sp) && 0 <= n
      ensures ProcTable(r, root, Pages((n + 2) * PGSIZE)) && IsRoot(r, root)
    {
    }

    /** Pages in use were not touched, so the old table is as it was. */
    lemma OldKept(r: Ram, r': Ram, root: int, n: int)
      requires Good(r) && ProcTable(r, root, n) && RolesKept(r, r')
      ensures ProcTable(r', root, n) && TopsKept(r, r', root)
    {
      hide Good;
      forall v | 0 <= v < VPNS ensures Pte(r', root, v) == Pte(r, root, v) {
        OldTables(r, r', root);
        PteSame(r, r', root, v);
      }
      hide Pte;
    }

    lemma OldTables(r: Ram, r': Ram, root: int)
      requires Good(r) && RolesKept(r, r')
      ensures TablesSame(r, r', root)
    {
    }

    lemma OldStill(r: Ram, r': Ram, root: int, was: int, n: int)
      requires Good(r) && NoneOf(r, root) && Others(r, r', root, {}) && ProcTable(r, was, n)
      ensures was != root && IsRoot(r, was) && ProcTable(r', was, n)
    {
      assert IsRoot(r, was);
      assert RootOf(r.role[was]) == was;
      ParentSame(r, r', root, was);
      hide Good;
      forall v | 0 <= v < VPNS ensures Pte(r', was, v) == Pte(r, was, v) {
        assert Same(r, r', was, v);
      }
      hide Pte;
    }

    /** growproc: the size is kept in an unsigned 32-bit number, so a request to shrink below nothing wraps
        around to a large size and is ignored. */
    method Growproc(n: int) returns (r: int)
      requires Valid() && -0x8000_0000 <= n < 0x8000_0000
      modifies this`sz, m`mem, m`free, m`role
      ensures Valid() && Others(old(m.R()), m.R(), pagetable, {})
      ensures r == 0 || (r == -1 && n > 0)
      ensures r == 0 && n > 0 ==> sz == old(sz) + n && Grown(old(m.R()), m.R(), pagetable, Pages(old(sz)), Pages(sz))
      ensures r == 0 && n <= 0 && old(sz) + n >= 0 ==>
                sz == old(sz) + n && UnmapDone(old(m.R()), m.R(), pagetable, Pages(sz), Pages(old(sz)))
      ensures old(sz) + n < 0 ==> r == 0 && sz == old(sz) && m.R() == old(m.R())
      ensures r == -1 ==>
                sz == old(sz) && Steps(old(m.R()), m.R(), pagetable) && |old(m.free)| <= 3 * (Pages(sz + n) - Pages(sz))
    {
      hide Good, Others, Image, Grown, UnmapDone, Steps, Pte, Fixed, TopsKept;
      ghost var r0 := m.R();
      SizeBound(r0, pagetable, sz);
      SelfOthers(r0, pagetable);
      UnmapNone(r0, pagetable, Pages(sz));
      if n > 0 {
        var sz1 := m.Uvmalloc(pagetable, sz, sz + n);
        if sz1 == 0 {
          StepsTable(r0, m.R(), pagetable, Pages(sz));
          StepsOthers(r0, m.R(), pagetable);
          StepsTops(r0, m.R(), pagetable);
          FixedKept(r0, m.R(), pagetable, trampoline, trapframe);
          return -1;
        }
        GrownTable(r0, m.R(), pagetable, Pages(sz), Pages(sz1));
        GrownOthers(r0, m.R(), pagetable, Pages(sz), Pages(sz1));
        FixedKept(r0, m.R(), pagetable, trampoline, trapframe);
        sz := sz1;
      } else if n < 0 {
        var newsz := if sz + n < 0 then sz + n + 0x1_0000_0000 else sz + n;
        MappedBelow(r0, pagetable, Pages(newsz), Pages(sz));
        var sz1 := m.Uvmdealloc(pagetable, sz, newsz);
        if newsz < sz {
          ShrunkTable(r0, m.R(), pagetable, newsz, sz);
          FixedKept(r0, m.R(), pagetable, trampoline, trapframe);
        }
        sz := sz1;
      }
      r := 0;
    }
  }
}
