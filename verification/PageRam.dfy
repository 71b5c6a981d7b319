/**
 * Physical memory as kernel/kalloc.c and kernel/vm.c use it: pages that are free, hold page-table entries
 * or hold user bytes.  Page tables have the three levels of Sv39 (section 4.4 of the RISC-V Privileged
 * Architecture specification).  What each page is for is kept as bookkeeping beside the memory; Good says
 * that the memory and the bookkeeping agree.
 */
module PageRam {

  // ----- page numbers and page-table entries

  const PGSIZE: int := 4096
  const VPNS: int := 0x400_0000            // virtual pages below MAXVA
  const MAXVA: int := VPNS * PGSIZE
  const USER: int := VPNS - 2              // the trapframe's page number; user pages lie below it

  const PTE_V: int := 1
  const PTE_R: int := 2
  const PTE_W: int := 4
  const PTE_X: int := 8
  const PTE_U: int := 16

  /** PA2PTE(pa) | flags, for the page number p of pa. */
  function Make(p: int, flags: int): (e: int) {
    p * 1024 + flags
  }

  /** Page number of PTE2PA(e). */
  function Ppn(e: int): int { e / 1024 }

  /** PTE_FLAGS(e). */
  function Flags(e: int): int { e % 1024 }

  /** The bits of e the kernel looks at. */
  predicate Valid(e: int) { e % 2 == 1 }
  predicate User(e: int) { e / 16 % 2 == 1 }
  predicate IsLeaf(e: int) { e / 2 % 8 != 0 }

  /** PX(level, va) for the page number v of va. */
  function Px(level: int, v: int): (i: int)
    requires 0 <= level <= 2
    ensures 0 <= i < 512
  {
    if level == 0 then v % 512 else if level == 1 then v / 512 % 512 else v / 0x4_0000 % 512
  }

  lemma MakeParts(p: int, flags: int)
    requires 0 <= flags < 1024
    ensures Ppn(Make(p, flags)) == p && Flags(Make(p, flags)) == flags
    ensures Valid(Make(p, flags)) <==> flags % 2 == 1
    ensures User(Make(p, flags)) <==> flags / 16 % 2 == 1
    ensures IsLeaf(Make(p, flags)) <==> flags / 2 % 8 != 0
  {
    var e := Make(p, flags);
    assert Ppn(e) == p && Flags(e) == flags;
    assert e == 2 * (512 * p + flags / 2) + flags % 2;
    assert e / 2 == 8 * (64 * p) + flags / 2;
    assert e / 16 == 2 * (32 * p) + flags / 16;
    Shift(64 * p, flags / 2, 8);
    Shift(32 * p, flags / 16, 2);
  }

  lemma Shift(a: int, b: int, m: int)
    requires m == 2 || m == 8
    ensures (m * a + b) % m == b % m
  {
  }

  // ----- pages

  datatype Page = Table(ptes: seq<int>) | Bytes(bytes: seq<int>)

  /** What a page is for: free; held by whoever allocated it; the table at a level of the tree of root that
      covers the page numbers with prefix x; or the user page that root maps at v.  up is the table whose
      entry refers to the page. */
  datatype Role =
    | Free
    | Held
    | Node(root: int, level: int, x: int, up: int)
    | Leaf(root: int, v: int, up: int)

  datatype Ram = Ram(mem: map<int, Page>, free: seq<int>, role: map<int, Role>)

  function Filled(b: int): (p: Page)
    ensures p.Bytes? && |p.bytes| == PGSIZE && forall i :: 0 <= i < PGSIZE ==> p.bytes[i] == b
  {
    Bytes(seq(PGSIZE, i => b))
  }

  function EmptyTable(): (p: Page)
    ensures p.Table? && |p.ptes| == 512 && forall i :: 0 <= i < 512 ==> p.ptes[i] == 0
  {
    Table(seq(512, i => 0))
  }

  ghost function Entry(r: Ram, p: int, i: int): int {
    if p in r.mem && r.mem[p].Table? && 0 <= i < |r.mem[p].ptes| then r.mem[p].ptes[i] else 0
  }

  ghost predicate Shaped(r: Ram) {
    && r.mem.Keys == r.role.Keys
    && (forall p :: p in r.role ==> 0 < p)
    && (forall p :: p in r.role && r.role[p].Node? ==> r.mem[p].Table? && |r.mem[p].ptes| == 512)
    && (forall p :: p in r.role && !r.role[p].Node? ==> r.mem[p].Bytes? && |r.mem[p].bytes| == PGSIZE)
  }

  ghost predicate FreeOk(r: Ram) {
    && (forall i, j :: 0 <= i < j < |r.free| ==> r.free[i] != r.free[j])
    && (forall p :: p in r.free <==> p in r.role && r.role[p] == Free)
  }

  /** Links on their way out: the entry that still refers to a page already freed. */
  type Loose = map<int, (int, int)>

  /** Valid entry e, number i of the table p with role n, refers to a page whose role names it. */
  ghost predicate Linked(r: Ram, loose: Loose, p: int, n: Role, i: int, e: int)
    requires n.Node?
  {
    if n.level > 0 then
      && Flags(e) == PTE_V
      && ((Ppn(e) in loose && loose[Ppn(e)] == (p, i))
          || (Ppn(e) in r.role && r.role[Ppn(e)] == Node(n.root, n.level - 1, n.x * 512 + i, p)))
    else
      && IsLeaf(e)
      && (n.x * 512 + i < USER ==> Ppn(e) in r.role && r.role[Ppn(e)] == Leaf(n.root, n.x * 512 + i, p))
      && (n.x * 512 + i >= USER ==> !User(e))
  }

  ghost predicate Down(r: Ram, loose: Loose) {
    forall p, i {:trigger Entry(r, p, i)} :: p in r.role && r.role[p].Node? && 0 <= i < 512 && Valid(Entry(r, p, i)) ==>
      Linked(r, loose, p, r.role[p], i, Entry(r, p, i))
  }

  ghost predicate IsNode(r: Ram, p: int, root: int, level: int, x: int) {
    p in r.role && r.role[p].Node? && r.role[p].root == root && r.role[p].level == level && r.role[p].x == x
  }

  ghost predicate IsRoot(r: Ram, root: int) {
    IsNode(r, root, root, 2, 0)
  }

  predicate InTree(level: int, x: int) {
    || (level == 2 && x == 0)
    || (level == 1 && 0 <= x < 256)
    || (level == 0 && 0 <= x < 0x2_0000)
  }

  /** The role t of page p is backed by the entry it names. */
  ghost predicate Hung(r: Ram, p: int, t: Role) {
    match t
    case Free => true
    case Held => true
    case Node(root, level, x, up) =>
      && InTree(level, x) && IsRoot(r, root) && (level == 2 ==> p == root)
      && (level < 2 ==> IsNode(r, up, root, level + 1, x / 512) && Entry(r, up, x % 512) == Make(p, PTE_V))
    case Leaf(root, v, up) =>
      && 0 <= v < USER && IsNode(r, up, root, 0, v / 512)
      && Valid(Entry(r, up, v % 512)) && Ppn(Entry(r, up, v % 512)) == p
  }

  ghost predicate Up(r: Ram) {
    forall p :: p in r.role ==> Hung(r, p, r.role[p])
  }

  ghost predicate Sound(r: Ram, loose: Loose) {
    Shaped(r) && FreeOk(r) && Down(r, loose) && Up(r)
  }

  /** Each page is on the free list, held, a page-table node or a user leaf, and in one place only. */
  ghost predicate Good(r: Ram) {
    Sound(r, map[])
  }

  // ----- the translation that a page table stands for

  ghost function Child(r: Ram, p: int, i: int): int {
    if Valid(Entry(r, p, i)) then Ppn(Entry(r, p, i)) else 0
  }

  ghost function Node1(r: Ram, root: int, v: int): int {
    Child(r, root, Px(2, v))
  }

  ghost function Node0(r: Ram, root: int, v: int): int {
    var q := Node1(r, root, v);
    if q == 0 then 0 else Child(r, q, Px(1, v))
  }

  /** An entry as far as it means anything: invalid entries count as 0. */
  function Norm(e: int): int { if Valid(e) then e else 0 }

  /** The valid entry for virtual page v, or 0. */
  ghost function Pte(r: Ram, root: int, v: int): int {
    var q := Node0(r, root, v);
    if q == 0 then 0 else Norm(Entry(r, q, Px(0, v)))
  }

  lemma PathDown(r: Ram, root: int, v: int)
    requires Good(r) && IsRoot(r, root) && 0 <= v < VPNS
    ensures Node1(r, root, v) != 0 ==> IsNode(r, Node1(r, root, v), root, 1, v / 0x4_0000)
    ensures Node0(r, root, v) != 0 ==> IsNode(r, Node0(r, root, v), root, 0, v / 512)
  {
    var q := Node1(r, root, v);
    assert Px(2, v) == v / 0x4_0000;
    if q != 0 {
      assert IsNode(r, q, root, 1, v / 0x4_0000);
      assert v / 512 == v / 0x4_0000 * 512 + Px(1, v);
    }
  }

  /** A page-table page is where walking to the page numbers it covers leads. */
  lemma PathUp(r: Ram, root: int, p: int, v: int)
    requires Good(r) && IsNode(r, p, root, 0, v / 512) && 0 <= v < VPNS
    ensures IsRoot(r, root) && Node0(r, root, v) == p
  {
    assert Hung(r, p, r.role[p]);
    var q := r.role[p].up;
    assert Hung(r, q, r.role[q]);
    var t := r.role[q].up;
    assert v / 512 / 512 == v / 0x4_0000;
    assert Hung(r, t, r.role[t]);
    assert t == root;
    MakeParts(q, PTE_V);
    MakeParts(p, PTE_V);
    assert Px(2, v) == v / 0x4_0000;
  }

  lemma MappedLeaf(r: Ram, root: int, v: int)
    requires Good(r) && IsRoot(r, root) && 0 <= v < VPNS && Valid(Pte(r, root, v))
    ensures IsLeaf(Pte(r, root, v)) && (User(Pte(r, root, v)) ==> v < USER)
    ensures v < USER ==>
              Ppn(Pte(r, root, v)) in r.role && r.role[Ppn(Pte(r, root, v))] == Leaf(root, v, Node0(r, root, v))
  {
    PathDown(r, root, v);
    assert v == v / 512 * 512 + Px(0, v);
  }

  /** Two user mappings share a page only if they are the same mapping. */
  lemma NoSharing(r: Ram, root: int, v: int, root': int, v': int)
    requires Good(r) && IsRoot(r, root) && IsRoot(r, root') && 0 <= v < USER && 0 <= v' < USER
    requires Valid(Pte(r, root, v)) && Valid(Pte(r, root', v')) && Ppn(Pte(r, root, v)) == Ppn(Pte(r, root', v'))
    ensures root == root' && v == v'
  {
    MappedLeaf(r, root, v);
    MappedLeaf(r, root', v');
  }

  // ----- steps

  ghost function SetEntry(r: Ram, p: int, i: int, e: int): Ram
    requires p in r.mem && r.mem[p].Table? && 0 <= i < |r.mem[p].ptes|
  {
    r.(mem := r.mem[p := Table(r.mem[p].ptes[i := e])])
  }

  /** kalloc. */
  ghost function Taken(r: Ram): Ram
    requires |r.free| > 0
  {
    Ram(r.mem[r.free[0] := Filled(5)], r.free[1..], r.role[r.free[0] := Held])
  }

  /** kfree. */
  ghost function Released(r: Ram, p: int): Ram {
    Ram(r.mem[p := Filled(1)], [p] + r.free, r.role[p := Free])
  }

  /** A zeroed page becomes the table that entry i of table q refers to. */
  ghost function Attached(r: Ram, q: int, i: int, p: int): Ram
    requires q in r.mem && r.mem[q].Table? && 0 <= i < |r.mem[q].ptes| && q in r.role && r.role[q].Node?
  {
    var n := r.role[q];
    Ram(r.mem[p := EmptyTable()][q := Table(r.mem[q].ptes[i := Make(p, PTE_V)])], r.free,
        r.role[p := Node(n.root, n.level - 1, n.x * 512 + i, q)])
  }

  /** A zeroed page becomes the top of a new tree. */
  ghost function Rooted(r: Ram, p: int): Ram {
    Ram(r.mem[p := EmptyTable()], r.free, r.role[p := Node(p, 2, 0, 0)])
  }

  /** Entry i of the bottom table q is set to e, which takes over the page it maps. */
  ghost function Mapped(r: Ram, q: int, i: int, e: int): Ram
    requires q in r.mem && r.mem[q].Table? && 0 <= i < |r.mem[q].ptes| && q in r.role && r.role[q].Node?
  {
    var n := r.role[q];
    var r1 := SetEntry(r, q, i, e);
    if n.x * 512 + i < USER then r1.(role := r.role[Ppn(e) := Leaf(n.root, n.x * 512 + i, q)]) else r1
  }

  /** Entry i of the bottom table q is cleared, which leaves its page to the caller. */
  ghost function Unmapped(r: Ram, q: int, i: int): Ram
    requires q in r.mem && r.mem[q].Table? && 0 <= i < |r.mem[q].ptes| && q in r.role && r.role[q].Node?
  {
    var n := r.role[q];
    var r1 := SetEntry(r, q, i, 0);
    if n.x * 512 + i < USER then r1.(role := r.role[Ppn(Entry(r, q, i)) := Held]) else r1
  }

  predicate Idle(t: Role) { t.Free? || t.Held? }

  /** r' keeps every page in use and every valid entry of r. */
  ghost predicate Extends(r: Ram, r': Ram) {
    && (forall q :: q in r.role && !Idle(r.role[q]) ==> q in r'.role && r'.role[q] == r.role[q])
    && (forall q, j {:trigger Entry(r, q, j)} {:trigger Entry(r', q, j)} ::
          q in r.role && r.role[q].Node? && Valid(Entry(r, q, j)) ==> Entry(r', q, j) == Entry(r, q, j))
  }

  lemma KeptHung(r: Ram, r': Ram, p: int)
    requires Extends(r, r') && p in r.role && Hung(r, p, r.role[p])
    ensures Hung(r', p, r.role[p])
  {
    MakeParts(p, PTE_V);
  }

  lemma KeptLinked(r: Ram, r': Ram, loose: Loose, p: int, i: int)
    requires Extends(r, r') && p in r.role && r.role[p].Node? && Linked(r, loose, p, r.role[p], i, Entry(r, p, i))
    ensures Linked(r', loose, p, r.role[p], i, Entry(r, p, i))
  {
  }

  /** Checking Down and Up after an extension: only pages and entries that changed need a look. */
  lemma ExtensionSound(r: Ram, r': Ram, loose: Loose)
    requires Down(r, loose) && Up(r) && Extends(r, r')
    requires forall p :: p in r'.role ==> (p in r.role && r'.role[p] == r.role[p]) || Hung(r', p, r'.role[p])
    requires forall p, i {:trigger Entry(r', p, i)} ::
               p in r'.role && r'.role[p].Node? && 0 <= i < 512 && Valid(Entry(r', p, i)) ==>
               (p in r.role && r'.role[p] == r.role[p] && Entry(r', p, i) == Entry(r, p, i))
                 || Linked(r', loose, p, r'.role[p], i, Entry(r', p, i))
    ensures Down(r', loose) && Up(r')
  {
    hide Hung, Linked, Extends;
    forall p | p in r'.role ensures Hung(r', p, r'.role[p]) {
      if p in r.role && r'.role[p] == r.role[p] {
        KeptHung(r, r', p);
      }
    }
    forall p, i | p in r'.role && r'.role[p].Node? && 0 <= i < 512 && Valid(Entry(r', p, i))
      ensures Linked(r', loose, p, r'.role[p], i, Entry(r', p, i))
    {
      if p in r.role && r'.role[p] == r.role[p] && Entry(r', p, i) == Entry(r, p, i) {
        KeptLinked(r, r', loose, p, i);
      }
    }
  }

  lemma QuietPage(r: Ram, loose: Loose, p: int, page: Page, t: Role, free: seq<int>)
    requires Shaped(r) && Down(r, loose) && Up(r) && p in r.role && Idle(r.role[p]) && Idle(t)
    requires page.Bytes? && |page.bytes| == PGSIZE
    ensures var r' := Ram(r.mem[p := page], free, r.role[p := t]); Shaped(r') && Down(r', loose) && Up(r')
  {
    hide Linked, Down, Up;
    var r' := Ram(r.mem[p := page], free, r.role[p := t]);
    assert forall q, i :: q in r.role && r.role[q].Node? ==> Entry(r', q, i) == Entry(r, q, i);
    ExtensionSound(r, r', loose);
  }

  lemma TakenSound(r: Ram, loose: Loose)
    requires Sound(r, loose) && |r.free| > 0
    ensures r.free[0] in r.role && r.role[r.free[0]] == Free && Sound(Taken(r), loose)
  {
    var p := r.free[0];
    assert p in r.free;
    QuietPage(r, loose, p, Filled(5), Held, r.free[1..]);
    FreeTail(r);
  }

  lemma FreeTail(r: Ram)
    requires FreeOk(r) && |r.free| > 0
    ensures FreeOk(Taken(r))
  {
    var r' := Taken(r);
    forall p ensures p in r'.free <==> p in r'.role && r'.role[p] == Free {
      assert p in r.free <==> p == r.free[0] || p in r.free[1..];
    }
  }

  lemma ReleasedSound(r: Ram, loose: Loose, p: int)
    requires Sound(r, loose) && p in r.role && r.role[p] == Held
    ensures Sound(Released(r, p), loose)
  {
    QuietPage(r, loose, p, Filled(1), Free, [p] + r.free);
    FreeMore(r, p);
  }

  lemma FreeMore(r: Ram, p: int)
    requires FreeOk(r) && p in r.role && r.role[p] != Free
    ensures FreeOk(Released(r, p))
  {
    var r' := Released(r, p);
    forall q ensures q in r'.free <==> q in r'.role && r'.role[q] == Free {
      assert q in r'.free <==> q == p || q in r.free;
    }
  }

  lemma EntriesAttached(r: Ram, q: int, i: int, p: int)
    requires Shaped(r) && q in r.role && r.role[q].Node? && 0 <= i < 512 && p != q
    ensures var r' := Attached(r, q, i, p);
            && Entry(r', q, i) == Make(p, PTE_V)
            && (forall j :: Entry(r', p, j) == 0)
            && (forall t, j :: t != p && (t != q || j != i) ==> Entry(r', t, j) == Entry(r, t, j))
  {
  }

  lemma FreeSame(r: Ram, r': Ram)
    requires FreeOk(r) && r'.free == r.free && r'.role.Keys == r.role.Keys
    requires forall p :: p in r.role ==> (r'.role[p] == Free <==> r.role[p] == Free)
    ensures FreeOk(r')
  {
  }

  lemma AttachedNew(r: Ram, q: int, i: int, p: int)
    requires Shaped(r) && q in r.role && r.role[q].Node? && r.role[q].level > 0 && 0 <= i < 512 && p != q
    requires Hung(r, q, r.role[q]) && p != r.role[q].root && InTree(r.role[q].level - 1, r.role[q].x * 512 + i)
    ensures var r' := Attached(r, q, i, p);
            && Linked(r', map[], q, r.role[q], i, Entry(r', q, i))
            && Hung(r', p, r'.role[p])
  {
    var n := r.role[q];
    EntriesAttached(r, q, i, p);
    MakeParts(p, PTE_V);
    assert (n.x * 512 + i) / 512 == n.x && (n.x * 512 + i) % 512 == i;
  }

  lemma AttachedShape(r: Ram, q: int, i: int, p: int)
    requires Shaped(r) && FreeOk(r) && q in r.role && r.role[q].Node? && 0 <= i < 512 && p in r.role
             && r.role[p] == Held
    ensures Shaped(Attached(r, q, i, p)) && FreeOk(Attached(r, q, i, p))
  {
    hide FreeOk;
    FreeSame(r, Attached(r, q, i, p));
  }

  lemma AttachedGood(r: Ram, q: int, i: int, p: int)
    requires Good(r) && q in r.role && r.role[q].Node? && r.role[q].level > 0 && 0 <= i < 512
    requires !Valid(Entry(r, q, i)) && p in r.role && r.role[p] == Held
             && InTree(r.role[q].level - 1, r.role[q].x * 512 + i)
    ensures Good(Attached(r, q, i, p))
  {
    var r' := Attached(r, q, i, p);
    assert Hung(r, q, r.role[q]);
    AttachedShape(r, q, i, p);
    AttachedNew(r, q, i, p);
    hide Down, Up, Linked, Hung, FreeOk, Shaped;
    assert Shaped(r);
    EntriesAttached(r, q, i, p);
    ExtensionSound(r, r', map[]);
  }

  lemma RootedGood(r: Ram, p: int)
    requires Good(r) && p in r.role && r.role[p] == Held
    ensures Good(Rooted(r, p)) && IsRoot(Rooted(r, p), p)
  {
    hide Linked, Down, Up, FreeOk;
    var r' := Rooted(r, p);
    assert forall j :: Entry(r', p, j) == 0;
    assert forall t, j :: t != p ==> Entry(r', t, j) == Entry(r, t, j);
    FreeSame(r, r');
    ExtensionSound(r, r', map[]);
  }

  lemma EntriesSet(r: Ram, p: int, i: int, e: int)
    requires p in r.mem && r.mem[p].Table? && 0 <= i < |r.mem[p].ptes|
    ensures Entry(SetEntry(r, p, i, e), p, i) == e
    ensures forall q, j {:trigger Entry(SetEntry(r, p, i, e), q, j)} :: q != p || j != i ==>
              Entry(SetEntry(r, p, i, e), q, j) == Entry(r, q, j)
  {
  }

  /** Entries depend on memory only. */
  lemma EntriesRole(r: Ram, role: map<int, Role>)
    ensures forall q, j {:trigger Entry(r.(role := role), q, j)} :: Entry(r.(role := role), q, j) == Entry(r, q, j)
  {
  }

  /** e may be put into the empty entry i of the bottom table q. */
  ghost predicate Mappable(r: Ram, q: int, i: int, e: int) {
    && q in r.role && r.role[q].Node? && r.role[q].level == 0 && 0 <= i < 512
    && !Valid(Entry(r, q, i)) && Valid(e) && IsLeaf(e)
    && (r.role[q].x * 512 + i < USER ==> Ppn(e) in r.role && r.role[Ppn(e)] == Held)
    && (r.role[q].x * 512 + i >= USER ==> !User(e))
  }

  lemma MappedShape(r: Ram, q: int, i: int, e: int)
    requires Shaped(r) && FreeOk(r) && Mappable(r, q, i, e)
    ensures Shaped(Mapped(r, q, i, e)) && FreeOk(Mapped(r, q, i, e))
  {
    hide FreeOk, Valid, IsLeaf, User, Ppn;
    FreeSame(r, Mapped(r, q, i, e));
  }

  lemma MappedNew(r: Ram, q: int, i: int, e: int)
    requires Shaped(r) && Mappable(r, q, i, e) && InTree(0, r.role[q].x)
    ensures var r' := Mapped(r, q, i, e);
            && Entry(r', q, i) == e
            && (forall t, j {:trigger Entry(r', t, j)} :: t != q || j != i ==> Entry(r', t, j) == Entry(r, t, j))
            && Linked(r', map[], q, r.role[q], i, e)
            && (r.role[q].x * 512 + i < USER ==> Hung(r', Ppn(e), r'.role[Ppn(e)]))
  {
    hide Valid, IsLeaf, User, Ppn;
    var n := r.role[q];
    var r1 := SetEntry(r, q, i, e);
    EntriesSet(r, q, i, e);
    if n.x * 512 + i < USER {
      EntriesRole(r1, r.role[Ppn(e) := Leaf(n.root, n.x * 512 + i, q)]);
      assert (n.x * 512 + i) / 512 == n.x && (n.x * 512 + i) % 512 == i;
    }
  }

  lemma MappedGood(r: Ram, q: int, i: int, e: int)
    requires Good(r) && Mappable(r, q, i, e)
    ensures Good(Mapped(r, q, i, e))
  {
    var r' := Mapped(r, q, i, e);
    assert Hung(r, q, r.role[q]);
    MappedShape(r, q, i, e);
    MappedNew(r, q, i, e);
    hide Down, Up, Linked, Hung, FreeOk, Valid, IsLeaf, User, Ppn;
    ExtensionSound(r, r', map[]);
  }

  lemma UnmappedShape(r: Ram, q: int, i: int)
    requires Shaped(r) && FreeOk(r) && q in r.role && r.role[q].Node? && 0 <= i < 512
    requires r.role[q].x * 512 + i < USER ==> Ppn(Entry(r, q, i)) in r.role && r.role[Ppn(Entry(r, q, i))].Leaf?
    ensures Shaped(Unmapped(r, q, i)) && FreeOk(Unmapped(r, q, i))
  {
    hide FreeOk, Ppn;
    FreeSame(r, Unmapped(r, q, i));
  }

  lemma EntriesUnmapped(r: Ram, q: int, i: int)
    requires Shaped(r) && q in r.role && r.role[q].Node? && 0 <= i < 512
    ensures var r' := Unmapped(r, q, i);
            && Entry(r', q, i) == 0
            && (forall t, j {:trigger Entry(r', t, j)} :: t != q || j != i ==> Entry(r', t, j) == Entry(r, t, j))
  {
    hide Ppn;
    var n := r.role[q];
    EntriesSet(r, q, i, 0);
    EntriesRole(SetEntry(r, q, i, 0), r.role[Ppn(Entry(r, q, i)) := Held]);
  }

  lemma HungAt(r: Ram, t: int)
    requires Good(r) && t in r.role
    ensures Hung(r, t, r.role[t])
  {
  }

  lemma LinkedAt(r: Ram, q: int, i: int)
    requires Good(r) && q in r.role && r.role[q].Node? && 0 <= i < 512 && Valid(Entry(r, q, i))
    ensures Linked(r, map[], q, r.role[q], i, Entry(r, q, i)) && Shaped(r)
  {
  }

  lemma UnmappedHung(r: Ram, q: int, i: int, t: int)
    requires Good(r) && q in r.role && r.role[q].Node? && r.role[q].level == 0 && 0 <= i < 512 && Valid(Entry(r, q, i))
    requires t in r.role && Unmapped(r, q, i).role[t] == r.role[t]
    ensures Hung(Unmapped(r, q, i), t, r.role[t])
  {
    hide Good, Valid, IsLeaf, User, Ppn, Entry;
    HungAt(r, t);
    LinkedAt(r, q, i);
    EntriesUnmapped(r, q, i);
    if r.role[t].Leaf? {
      var v := r.role[t].v;
      assert v == v / 512 * 512 + v % 512;
    }
  }

  lemma UnmappedLinked(r: Ram, q: int, i: int, t: int, j: int)
    requires Good(r) && q in r.role && r.role[q].Node? && r.role[q].level == 0 && 0 <= i < 512 && Valid(Entry(r, q, i))
    requires t in r.role && r.role[t].Node? && 0 <= j < 512 && (t != q || j != i) && Valid(Entry(r, t, j))
    ensures Linked(Unmapped(r, q, i), map[], t, r.role[t], j, Entry(r, t, j))
  {
    assert Linked(r, map[], t, r.role[t], j, Entry(r, t, j));
    assert Linked(r, map[], q, r.role[q], i, Entry(r, q, i));
    hide Down, Up, FreeOk, Valid, IsLeaf, User, Ppn;
  }

  lemma UnmappedGood(r: Ram, q: int, i: int)
    requires Good(r) && q in r.role && r.role[q].Node? && r.role[q].level == 0 && 0 <= i < 512 && Valid(Entry(r, q, i))
    ensures Good(Unmapped(r, q, i))
  {
    var r' := Unmapped(r, q, i);
    assert Linked(r, map[], q, r.role[q], i, Entry(r, q, i));
    UnmappedShape(r, q, i);
    EntriesUnmapped(r, q, i);
    hide Hung, FreeOk, Valid, IsLeaf, User, Ppn;
    forall t | t in r'.role ensures Hung(r', t, r'.role[t]) {
      if r'.role[t] == r.role[t] {
        UnmappedHung(r, q, i, t);
      } else {
        assert r'.role[t] == Held;
        HeldHung(r', t);
      }
    }
    forall t, j | t in r'.role && r'.role[t].Node? && 0 <= j < 512 && Valid(Entry(r', t, j))
      ensures Linked(r', map[], t, r'.role[t], j, Entry(r', t, j))
    {
      ZeroInvalid();
      UnmappedLinked(r, q, i, t, j);
    }
  }

  lemma HeldHung(r: Ram, p: int)
    ensures Hung(r, p, Held) && Hung(r, p, Free)
  {
  }

  lemma ZeroInvalid()
    ensures !Valid(0)
  {
  }

  /** e refers to the same page as e0 and gives users no more access. */
  predicate Weaker(e: int, e0: int) {
    && Ppn(e) == Ppn(e0) && (Valid(e) <==> Valid(e0)) && (IsLeaf(e) <==> IsLeaf(e0)) && (User(e) ==> User(e0))
  }

  lemma WeakerHung(r: Ram, q: int, i: int, e: int, t: int)
    requires Shaped(r) && q in r.role && r.role[q].Node? && r.role[q].level == 0 && 0 <= i < 512
    requires Weaker(e, Entry(r, q, i)) && t in r.role && Hung(r, t, r.role[t])
    ensures Hung(SetEntry(r, q, i, e), t, r.role[t])
  {
    hide Valid, IsLeaf, User, Ppn;
    EntriesSet(r, q, i, e);
  }

  lemma WeakerLinked(r: Ram, q: int, i: int, e: int, t: int, j: int)
    requires Good(r) && q in r.role && r.role[q].Node? && r.role[q].level == 0 && 0 <= i < 512
    requires Weaker(e, Entry(r, q, i)) && t in r.role && r.role[t].Node? && 0 <= j < 512
    requires var r' := SetEntry(r, q, i, e); Valid(Entry(r', t, j))
    ensures var r' := SetEntry(r, q, i, e); Linked(r', map[], t, r.role[t], j, Entry(r', t, j))
  {
    EntriesSet(r, q, i, e);
    hide Valid, IsLeaf, User, Ppn, Up, FreeOk;
    assert Linked(r, map[], t, r.role[t], j, Entry(r, t, j));
  }

  lemma SetShape(r: Ram, q: int, i: int, e: int)
    requires Shaped(r) && FreeOk(r) && q in r.role && r.role[q].Node? && 0 <= i < 512
    ensures q in r.mem && r.mem[q].Table? && |r.mem[q].ptes| == 512
    ensures var r' := SetEntry(r, q, i, e); Shaped(r') && FreeOk(r') && r'.role == r.role
  {
  }

  lemma WeakerGood(r: Ram, q: int, i: int, e: int)
    requires Good(r) && q in r.role && r.role[q].Node? && r.role[q].level == 0 && 0 <= i < 512
    requires Weaker(e, Entry(r, q, i))
    ensures Good(SetEntry(r, q, i, e))
  {
    hide Valid, IsLeaf, User, Ppn, Hung, Linked, Weaker, Entry, FreeOk, Shaped;
    SetShape(r, q, i, e);
    var r' := SetEntry(r, q, i, e);
    forall t | t in r'.role ensures Hung(r', t, r'.role[t]) {
      WeakerHung(r, q, i, e, t);
    }
    forall t, j | t in r'.role && r'.role[t].Node? && 0 <= j < 512 && Valid(Entry(r', t, j))
      ensures Linked(r', map[], t, r'.role[t], j, Entry(r', t, j))
    {
      WeakerLinked(r, q, i, e, t, j);
    }
  }

  // ----- translations after a step

  ghost predicate TablesSame(r: Ram, r': Ram, root: int) {
    forall q :: q in r.role && r.role[q].Node? && r.role[q].root == root ==>
      q in r.mem && q in r'.mem && r'.mem[q] == r.mem[q]
  }

  lemma PteSame(r: Ram, r': Ram, root: int, v: int)
    requires Good(r) && IsRoot(r, root) && 0 <= v < VPNS && TablesSame(r, r', root)
    ensures Pte(r', root, v) == Pte(r, root, v) && Node0(r', root, v) == Node0(r, root, v)
  {
    PathDown(r, root, v);
    hide Valid, Ppn;
  }

  /** Changing one entry of a bottom table changes the translation of one page. */
  lemma PteSet(r: Ram, r': Ram, q: int, i: int, root: int, v: int)
    requires Good(r) && IsRoot(r, root) && 0 <= v < VPNS && q in r.role && r.role[q].Node? && r.role[q].level == 0
             && 0 <= i < 512
    requires forall t, j {:trigger Entry(r', t, j)} :: t != q || j != i ==> Entry(r', t, j) == Entry(r, t, j)
    ensures Node0(r', root, v) == Node0(r, root, v)
    ensures Pte(r', root, v) == if root == r.role[q].root
              && v == r.role[q].x * 512 + i then Norm(Entry(r', q, i)) else Pte(r, root, v)
  {
    PathDown(r, root, v);
    if root == r.role[q].root && v == r.role[q].x * 512 + i {
      PathUp(r, root, q, v);
    }
    hide Valid, Ppn, Good;
    assert v == v / 512 * 512 + v % 512;
  }

  lemma PteAttached(r: Ram, q: int, i: int, p: int, root: int, v: int)
    requires Good(r) && q in r.role && r.role[q].Node? && r.role[q].level > 0 && 0 <= i < 512
    requires !Valid(Entry(r, q, i)) && p in r.role && r.role[p] == Held
    requires IsRoot(r, root) && 0 <= v < VPNS
    ensures Pte(Attached(r, q, i, p), root, v) == Pte(r, root, v)
  {
    var r' := Attached(r, q, i, p);
    EntriesAttached(r, q, i, p);
    PathDown(r, root, v);
    MakeParts(p, PTE_V);
    assert Entry(r', p, Px(1, v)) == 0 && Entry(r', p, Px(0, v)) == 0;
    ZeroInvalid();
    hide Valid, Ppn, Good, Px;
    if root == q && i == Px(2, v) {
      assert Node1(r', root, v) == p;
      assert Child(r', p, Px(1, v)) == 0;
    }
  }

  // ----- what a step leaves alone

  ghost function RootOf(t: Role): int {
    match t
    case Node(root, _, _, _) => root
    case Leaf(root, _, _) => root
    case _ => 0
  }

  ghost predicate Mine(t: Role, root: int) {
    t.Free? || (!t.Held? && RootOf(t) == root)
  }

  /** Only free pages, pages of root and the pages in own differ between r and r'. */
  ghost predicate Others(r: Ram, r': Ram, root: int, own: set<int>) {
    && r'.role.Keys == r.role.Keys && r.mem.Keys == r.role.Keys && r'.mem.Keys == r.role.Keys
    && (forall p :: p in r.role && p !in own ==>
          (Mine(r.role[p], root) && Mine(r'.role[p], root)) || (r'.role[p] == r.role[p] && r'.mem[p] == r.mem[p]))
  }

  lemma OthersMore(r: Ram, r1: Ram, r2: Ram, root: int, own: set<int>)
    requires Others(r, r1, root, own) && Others(r1, r2, root, own)
    ensures Others(r, r2, root, own)
  {
  }

  /** The translation and the user pages of another table stay as they were. */
  lemma OthersKept(r: Ram, r': Ram, root: int, own: set<int>, other: int, v: int)
    requires Good(r) && Others(r, r', root, own) && IsRoot(r, other) && other != root && 0 <= v < VPNS
    requires forall p :: p in own && p in r.role ==> Idle(r.role[p])
    ensures IsRoot(r', other) && Pte(r', other, v) == Pte(r, other, v)
    ensures v < USER && Valid(Pte(r, other, v)) ==>
              var p := Ppn(Pte(r, other, v)); p in r.mem && p in r'.mem && r'.mem[p] == r.mem[p]
  {
    if v < USER && Valid(Pte(r, other, v)) {
      MappedLeaf(r, other, v);
    }
    PteSame(r, r', other, v);
  }

  // ----- taking a tree apart

  lemma NodeUnique(r: Ram, p: int, q: int)
    requires Good(r) && p in r.role && q in r.role && r.role[p].Node? && r.role[q].Node?
    requires r.role[p].root == r.role[q].root && r.role[p].level == r.role[q].level && r.role[p].x == r.role[q].x
    ensures p == q
    decreases 2 - r.role[p].level
  {
    assert Hung(r, p, r.role[p]) && Hung(r, q, r.role[q]);
    if r.role[p].level < 2 {
      NodeUnique(r, r.role[p].up, r.role[q].up);
      MakeParts(p, PTE_V);
      MakeParts(q, PTE_V);
    }
  }

  ghost function LinkOf(p: int, t: Role): Loose {
    if t.Node? && t.level < 2 then map[p := (t.up, t.x % 512)] else map[]
  }

  /** Freeing a table without valid entries leaves only the entry that refers to it behind. */
  lemma FreedSound(r: Ram, p: int)
    requires Good(r) && p in r.role && r.role[p].Node? && forall i :: 0 <= i < 512 ==> !Valid(Entry(r, p, i))
    requires r.role[p].level == 2 ==> forall t :: t in r.role && t != p && !Idle(r.role[t]) ==> RootOf(r.role[t]) != p
    ensures Sound(Released(r, p), LinkOf(p, r.role[p]))
  {
    hide Valid, Ppn, IsLeaf, User, FreeOk, Hung, Linked, LinkOf;
    var r' := Released(r, p);
    FreeMore(r, p);
    assert forall t, j :: t != p ==> Entry(r', t, j) == Entry(r, t, j);
    hide Valid, Ppn, IsLeaf, User, FreeOk, Hung, Linked, Entry, LinkOf;
    forall t | t in r'.role ensures Hung(r', t, r'.role[t]) {
      if t != p {
        FreedHung(r, p, t);
      } else {
        HeldHung(r', t);
      }
    }
    forall t, j | t in r'.role && r'.role[t].Node? && 0 <= j < 512 && Valid(Entry(r', t, j))
      ensures Linked(r', LinkOf(p, r.role[p]), t, r'.role[t], j, Entry(r', t, j))
    {
      FreedLinked(r, p, t, j);
    }
  }

  lemma EntriesReleased(r: Ram, p: int)
    ensures var r' := Released(r, p);
            forall s, j {:trigger Entry(r', s, j)} :: s != p ==> Entry(r', s, j) == Entry(r, s, j)
  {
  }

  lemma FreedHung(r: Ram, p: int, t: int)
    requires Good(r) && p in r.role && r.role[p].Node? && forall i :: 0 <= i < 512 ==> !Valid(Entry(r, p, i))
    requires r.role[p].level == 2 ==> forall t :: t in r.role && t != p && !Idle(r.role[t]) ==> RootOf(r.role[t]) != p
    requires t in r.role && t != p
    ensures Hung(Released(r, p), t, r.role[t])
  {
    hide Good, Valid, Ppn, IsLeaf, User, Make, Entry;
    HungAt(r, t);
    HungAt(r, p);
    EntriesReleased(r, p);
    MakeParts(t, PTE_V);
    if r.role[t].Node? && r.role[t].level < 2 {
      assert !Valid(Entry(r, p, r.role[t].x % 512));
    } else if r.role[t].Leaf? {
      assert !Valid(Entry(r, p, r.role[t].v % 512));
    }
  }

  lemma FreedLinked(r: Ram, p: int, t: int, j: int)
    requires Good(r) && p in r.role && r.role[p].Node?
    requires t in r.role && r.role[t].Node? && t != p && 0 <= j < 512 && Valid(Entry(r, t, j))
    ensures Linked(Released(r, p), LinkOf(p, r.role[p]), t, r.role[t], j, Entry(r, t, j))
  {
    assert Linked(r, map[], t, r.role[t], j, Entry(r, t, j));
    assert Hung(r, p, r.role[p]);
    hide Valid, Ppn, IsLeaf, User, FreeOk, Down, Up;
    var n := r.role[t];
    assert (n.x * 512 + j) % 512 == j;
  }

  lemma CutGood(r: Ram, q: int, i: int, c: int)
    requires Sound(r, map[c := (q, i)]) && c in r.role && r.role[c] == Free
    requires q in r.role && r.role[q].Node? && r.role[q].level > 0 && 0 <= i < 512 && Entry(r, q, i) == Make(c, PTE_V)
    ensures Good(SetEntry(r, q, i, 0))
  {
    hide Valid, Ppn, IsLeaf, User, Make, Hung, Linked, Entry;
    var r' := SetEntry(r, q, i, 0);
    forall t | t in r'.role ensures Hung(r', t, r'.role[t]) {
      CutHung(r, q, i, c, t);
    }
    forall t, j | t in r'.role && r'.role[t].Node? && 0 <= j < 512 && Valid(Entry(r', t, j))
      ensures Linked(r', map[], t, r'.role[t], j, Entry(r', t, j))
    {
      CutLinked(r, q, i, c, t, j);
    }
  }

  lemma CutHung(r: Ram, q: int, i: int, c: int, t: int)
    requires Shaped(r) && c in r.role && r.role[c] == Free && t in r.role && Hung(r, t, r.role[t])
    requires q in r.role && r.role[q].Node? && r.role[q].level > 0 && 0 <= i < 512 && Entry(r, q, i) == Make(c, PTE_V)
    ensures Hung(SetEntry(r, q, i, 0), t, r.role[t])
  {
    EntriesSet(r, q, i, 0);
    MakeParts(c, PTE_V);
    MakeParts(t, PTE_V);
    hide Valid, Ppn, IsLeaf, User;
  }

  lemma CutLinked(r: Ram, q: int, i: int, c: int, t: int, j: int)
    requires Sound(r, map[c := (q, i)]) && c in r.role && r.role[c] == Free && t in r.role && r.role[t].Node?
             && 0 <= j < 512
    requires q in r.role && r.role[q].Node? && r.role[q].level > 0 && 0 <= i < 512
    requires Valid(Entry(SetEntry(r, q, i, 0), t, j))
    ensures var r' := SetEntry(r, q, i, 0); Linked(r', map[], t, r.role[t], j, Entry(r', t, j))
  {
    EntriesSet(r, q, i, 0);
    ZeroInvalid();
    hide Valid, Ppn, IsLeaf, User, Up, FreeOk;
    assert Linked(r, map[c := (q, i)], t, r.role[t], j, Entry(r, t, j));
  }
}
