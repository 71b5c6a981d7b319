/**
 * dirlookup, dirlink and namex of kernel/fs.c; isdirempty, sys_link, sys_unlink and create of kernel/sysfile.c,
 * on paths.  Link counts are 16 bits wide, a directory holds at most MAXENTRIES entries and a lookup compares
 * DIRSIZ bytes.  Panic stands for the source's panics.
 */
module Directories {
  import opened PathNames
  import opened Links

  /** The largest file, divided by the size of a directory entry. */
  const MAXENTRIES: int := 268 * 1024 / 16

  const MAXLINKS: int := 32767

  predicate IsShort(n: int) { -32768 <= n <= MAXLINKS }

  function Short(n: int): (r: int)
    ensures IsShort(r) && (IsShort(n) ==> r == n)
  {
    (n + 32768) % 65536 - 32768
  }

  predicate RecOk(ip: Inode) {
    && |ip.entries| <= MAXENTRIES && IsShort(ip.nlink)
    && forall k :: 0 <= k < |ip.entries| ==> Normal(ip.entries[k].name)
  }

  /** What the disk can hold. */
  ghost predicate Stored(fs: Fs) {
    forall d :: d in fs ==> RecOk(fs[d])
  }

  // ----- lookups

  /** The first entry in use from k on with this name, or -1. */
  function Find(es: seq<Dirent>, name: Name, k: int): (r: int)
    requires 0 <= k <= |es|
    ensures r == -1 <==> forall j :: k <= j < |es| && es[j].inum != 0 ==> es[j].name != name
    ensures r != -1 ==> k <= r < |es| && es[r].inum != 0 && es[r].name == name
    ensures r != -1 ==> forall j :: k <= j < r && es[j].inum != 0 ==> es[j].name != name
    decreases |es| - k
  {
    if k == |es| then -1
    else if es[k].inum != 0 && es[k].name == name then k
    else Find(es, name, k + 1)
  }

  datatype Lookup = At(i: int) | Absent | Panicked

  /** Follow names from inode i; with parent set, stop at the directory of the last one.  An inode that is not
      there cannot be locked. */
  function Resolve(fs: Fs, i: int, es: seq<Name>, parent: bool): Lookup
    decreases |es|
  {
    if es == [] then (if parent then Absent else At(i))
    else if i !in fs then Panicked
    else if fs[i].kind != DIR then Absent
    else if parent && |es| == 1 then At(i)
    else
      var k := Find(fs[i].entries, es[0], 0);
      if k == -1 then Absent else Resolve(fs, fs[i].entries[k].inum, es[1..], parent)
  }

  function Start(path: seq<int>, cwd: int): int { if path != [] && path[0] == SLASH then ROOT else cwd }

  function Namei(fs: Fs, cwd: int, path: seq<int>): Lookup { Resolve(fs, Start(path, cwd), Elems(path, 0), false) }

  function Nameiparent(fs: Fs, cwd: int, path: seq<int>): (r: Lookup)
    ensures r.At? ==> Elems(path, 0) != [] && r.i in fs && fs[r.i].kind == DIR
  {
    ParentIsDir(fs, Start(path, cwd), Elems(path, 0));
    Resolve(fs, Start(path, cwd), Elems(path, 0), true)
  }

  /** The last name of a path. */
  function Last(path: seq<int>): Name
    requires Elems(path, 0) != []
  {
    var es := Elems(path, 0);
    es[|es| - 1]
  }

  lemma {:induction false} ParentIsDir(fs: Fs, i: int, es: seq<Name>)
    ensures var r := Resolve(fs, i, es, true); r.At? ==> es != [] && r.i in fs && fs[r.i].kind == DIR
    decreases |es|
  {
    if |es| > 1 && i in fs && fs[i].kind == DIR {
      var k := Find(fs[i].entries, es[0], 0);
      if k != -1 {
        ParentIsDir(fs, fs[i].entries[k].inum, es[1..]);
      }
    }
  }

  /** A lookup that starts in a live directory meets only inodes that are there and live directories; so does
      every lookup of an absolute path. */
  lemma {:induction false} ResolveLive(fs: Fs, home: map<int, int>, i: int, es: seq<Name>, parent: bool)
    requires Tree(fs, home) && i in fs && Live(fs[i])
    ensures var r := Resolve(fs, i, es, parent);
            && !r.Panicked? && (r.At? ==> r.i in fs && (fs[r.i].kind == DIR ==> Live(fs[r.i])))
    decreases |es|
  {
    hide Tree;
    if es != [] {
      var k := Find(fs[i].entries, es[0], 0);
      if k != -1 {
        NextLive(fs, home, i, k);
        var j := fs[i].entries[k].inum;
        if fs[j].kind == DIR {
          ResolveLive(fs, home, j, es[1..], parent);
        }
      }
    }
  }

  lemma NextLive(fs: Fs, home: map<int, int>, i: int, k: int)
    requires Tree(fs, home) && i in fs && Live(fs[i]) && 0 <= k < |fs[i].entries| && fs[i].entries[k].inum != 0
    ensures var j := fs[i].entries[k].inum; j in fs && (fs[j].kind == DIR ==> Live(fs[j]))
  {
    hide Shapes, Homes;
    EntryThere(fs, home, i, k);
    DotsOf(fs, i);
  }

  lemma LookupLive(fs: Fs, home: map<int, int>, cwd: int, path: seq<int>)
    requires Tree(fs, home) && (Start(path, cwd) == ROOT || (cwd in fs && Live(fs[cwd])))
    ensures !Namei(fs, cwd, path).Panicked? && !Nameiparent(fs, cwd, path).Panicked?
    ensures Namei(fs, cwd, path).At? ==> Namei(fs, cwd, path).i in fs
    ensures Nameiparent(fs, cwd, path).At? ==> Live(fs[Nameiparent(fs, cwd, path).i])
  {
    hide Entries, Homes, Shapes;
    ResolveLive(fs, home, Start(path, cwd), Elems(path, 0), false);
    ResolveLive(fs, home, Start(path, cwd), Elems(path, 0), true);
  }

  /** Link counts play no part in lookups. */
  lemma {:induction false} ResolveLinks(fs: Fs, j: int, n: int, i: int, es: seq<Name>, parent: bool)
    requires j in fs
    ensures Resolve(WithLinks(fs, j, n), i, es, parent) == Resolve(fs, i, es, parent)
    decreases |es|
  {
    if es != [] && i in fs && fs[i].kind == DIR {
      var k := Find(fs[i].entries, es[0], 0);
      if k != -1 {
        ResolveLinks(fs, j, n, fs[i].entries[k].inum, es[1..], parent);
      }
    }
  }

  /** Two elements of a path find the same entry of a directory exactly when they agree in their first DIRSIZ
      bytes. */
  lemma SameEntry(es: seq<Dirent>, s: seq<int>, t: seq<int>)
    requires IsPath(s) && IsPath(t) && Find(es, Field(s), 0) != -1
    ensures Find(es, Field(t), 0) == Find(es, Field(s), 0) <==> Head(s) == Head(t)
  {
    SameElement(s, t);
  }

  /** Names in a directory of the tree are unique on DIRSIZ bytes. */
  lemma UniqueNames(fs: Fs, home: map<int, int>, d: int, j: int, k: int)
    requires Good(fs, home) && Stored(fs) && d in fs && fs[d].kind == DIR && 0 <= j < |fs[d].entries|
             && 0 <= k < |fs[d].entries|
    requires fs[d].entries[j].inum != 0 && fs[d].entries[k].inum != 0
    requires Upto(fs[d].entries[j].name, DIRSIZ) == Upto(fs[d].entries[k].name, DIRSIZ)
    ensures j == k
  {
    hide Entries, Homes, Law;
    DotsOf(fs, d);
    assert RecOk(fs[d]);
    SameField(fs[d].entries[j].name, fs[d].entries[k].name);
  }

  // ----- what the operations do

  datatype Outcome = Ok | Fail | Panic

  /** No room for another entry. */
  predicate Crammed(es: seq<Dirent>) {
    |es| >= MAXENTRIES && forall k :: 0 <= k < |es| ==> es[k].inum != 0
  }

  /** sys_link of file i under a name in d, put at entry k. */
  function Linked(fs: Fs, i: int, d: int, k: int, name: Name): Fs
    requires i in fs && d in fs && 0 <= k <= |fs[d].entries|
  {
    WithEntry(WithLinks(fs, i, Short(fs[i].nlink + 1)), d, k, Dirent(i, name))
  }

  ghost predicate LinkIn(fs: Fs, i: int, d: int, name: Name, r: Outcome, k: int, fs': Fs)
    requires i in fs && d in fs
  {
    if Find(fs[d].entries, name, 0) != -1 then r == Fail && fs' == fs
    else if Crammed(fs[d].entries) then r == Panic
    else r == Ok && FirstFree(fs[d].entries, k) && fs' == Linked(fs, i, d, k, name)
  }

  ghost predicate LinkSpec(fs: Fs, cwd: int, from: seq<int>, to: seq<int>, r: Outcome, k: int, fs': Fs) {
    match Namei(fs, cwd, from)
    case Absent => r == Fail && fs' == fs
    case Panicked => r == Panic
    case At(i) =>
      if i !in fs then r == Panic
      else if fs[i].kind == DIR then r == Fail && fs' == fs
      else match Nameiparent(fs, cwd, to)
        case Absent => r == Fail && fs' == fs
        case Panicked => r == Panic
        case At(d) => LinkIn(fs, i, d, Last(to), r, k, fs')
  }

  predicate IsEmpty(es: seq<Dirent>) { forall j :: 2 <= j < |es| ==> es[j].inum == 0 }

  /** sys_unlink of entry k of d. */
  function Unlinked(fs: Fs, d: int, k: int): Fs
    requires d in fs && 0 <= k < |fs[d].entries| && fs[d].entries[k].inum in fs
  {
    var c := fs[d].entries[k].inum;
    var fs1 := WithEntry(fs, d, k, Free());
    var fs2 := if fs[c].kind == DIR then WithLinks(fs1, d, Short(fs1[d].nlink - 1)) else fs1;
    WithLinks(fs2, c, Short(fs2[c].nlink - 1))
  }

  ghost predicate UnlinkIn(fs: Fs, d: int, name: Name, r: Outcome, k: int, fs': Fs)
    requires d in fs
  {
    if name == Dot() || name == DotDot() || Find(fs[d].entries, name, 0) == -1 then r == Fail && fs' == fs
    else
      && k == Find(fs[d].entries, name, 0)
      && var i := fs[d].entries[k].inum;
         if i !in fs || fs[i].nlink < 1 then r == Panic
         else if fs[i].kind == DIR && !IsEmpty(fs[i].entries) then r == Fail && fs' == fs
         else r == Ok && fs' == Unlinked(fs, d, k)
  }

  ghost predicate UnlinkSpec(fs: Fs, cwd: int, path: seq<int>, r: Outcome, k: int, fs': Fs) {
    match Nameiparent(fs, cwd, path)
    case Absent => r == Fail && fs' == fs
    case Panicked => r == Panic
    case At(d) => UnlinkIn(fs, d, Last(path), r, k, fs')
  }

  /** create of inode c under a name in d, put at entry k. */
  function New(fs: Fs, d: int, k: int, name: Name, c: int, kind: Kind): Fs
    requires d in fs && d != c && 0 <= k <= |fs[d].entries|
  {
    if kind == DIR then
      WithEntry(WithLinks(fs[c := Inode(DIR, 1, [Dirent(c, Dot()), Dirent(d, DotDot())])], d, Short(fs[d].nlink + 1)),
        d, k, Dirent(c, name))
    else Born(fs, d, k, name, c, kind)
  }

  ghost predicate CreateIn(fs: Fs, d: int, name: Name, kind: Kind, c: int, r: Outcome, num: int, k: int, fs': Fs)
    requires d in fs && c !in fs
  {
    if Find(fs[d].entries, name, 0) != -1 then
      var i := fs[d].entries[Find(fs[d].entries, name, 0)].inum;
      if i !in fs then r == Panic
      else if kind == FILE && fs[i].kind != DIR then r == Ok && num == i && fs' == fs
      else r == Fail && fs' == fs
    else if Crammed(fs[d].entries) then r == Panic
    else r == Ok && num == c && FirstFree(fs[d].entries, k) && fs' == New(fs, d, k, name, c, kind)
  }

  ghost predicate CreateSpec(fs: Fs, cwd: int, path: seq<int>, kind: Kind, c: int, r: Outcome, num: int, k: int,
        fs': Fs)
    requires c !in fs
  {
    match Nameiparent(fs, cwd, path)
    case Absent => r == Fail && fs' == fs
    case Panicked => r == Panic
    case At(d) => CreateIn(fs, d, Last(path), kind, c, r, num, k, fs')
  }

  // ----- when the law is kept

  /** A link keeps the law exactly when the directory is live and the count does not overflow. */
  lemma LinkLaw(fs: Fs, home: map<int, int>, i: int, d: int, k: int, name: Name)
    requires Good(fs, home) && Stored(fs) && i in fs && fs[i].kind != DIR && d in fs && fs[d].kind == DIR
    requires FirstFree(fs[d].entries, k) && Find(fs[d].entries, name, 0) == -1
    ensures Law(Linked(fs, i, d, k, name)) <==> Live(fs[d]) && fs[i].nlink < MAXLINKS
    ensures Live(fs[d]) && fs[i].nlink < MAXLINKS ==> Good(Linked(fs, i, d, k, name), home)
  {
    hide Tree, Law, FirstFree, Set;
    assert RecOk(fs[i]);
    LinkEnds(fs, home, i, d, k);
    if fs[i].nlink == MAXLINKS {
      Overflows(fs, i, d, k, name);
    } else if Live(fs[d]) {
      LinkGood(fs, home, i, d, k, name);
    } else {
      LinkedDead(fs, d, k, name, i);
    }
  }

  lemma LinkEnds(fs: Fs, home: map<int, int>, i: int, d: int, k: int)
    requires d in fs && FirstFree(fs[d].entries, k)
    ensures 0 <= k <= |fs[d].entries|
  {
  }

  /** The next link after the largest count makes it negative. */
  lemma Overflows(fs: Fs, i: int, d: int, k: int, name: Name)
    requires i in fs && d in fs && 0 <= k <= |fs[d].entries| && fs[i].nlink == MAXLINKS && i != d
    ensures Linked(fs, i, d, k, name)[i].nlink == -32768 && !Law(Linked(fs, i, d, k, name))
  {
    var fs1 := Linked(fs, i, d, k, name);
    assert |Names(fs1, i)| != fs1[i].nlink;
  }

  /** After that, unlinking any of the file's names panics. */
  lemma OverflowThenUnlink(fs: Fs, i: int, d: int, k: int, name: Name, x: int, n: Name, r: Outcome, j: int, fs': Fs)
    requires i in fs && d in fs && 0 <= k <= |fs[d].entries| && fs[i].nlink == MAXLINKS && i != d && x in fs
    requires var es := Linked(fs, i, d, k, name)[x].entries; Find(es, n, 0) != -1 && es[Find(es, n, 0)].inum == i
    requires n != Dot() && n != DotDot() && UnlinkIn(Linked(fs, i, d, k, name), x, n, r, j, fs')
    ensures r == Panic
  {
    Overflows(fs, i, d, k, name);
  }

  /** One more link and name, with the count unbounded. */
  function Plus(fs: Fs, i: int, d: int, k: int, name: Name): Fs
    requires i in fs && d in fs && 0 <= k <= |fs[d].entries|
  {
    WithEntry(WithLinks(fs, i, fs[i].nlink + 1), d, k, Dirent(i, name))
  }

  lemma LinkGood(fs: Fs, home: map<int, int>, i: int, d: int, k: int, name: Name)
    requires i in fs && fs[i].kind != DIR && d in fs && Live(fs[d]) && 0 <= k <= |fs[d].entries|
    requires FirstFree(fs[d].entries, k) && Unused(fs, d, name) && Good(fs, home)
    ensures Good(Plus(fs, i, d, k, name), home)
  {
    hide Tree, Law, Unused, FirstFree, WithEntry, WithLinks, Live, Dot;
    TreeNotDot(fs, home, d, k, name);
    LinkTree(fs, home, i, d, k, name);
    TreeKeys(fs, home);
    LawAdded(fs, d, k, name, i);
  }

  lemma LinkTree(fs: Fs, home: map<int, int>, i: int, d: int, k: int, name: Name)
    requires i in fs && fs[i].kind != DIR && d in fs && Live(fs[d]) && 0 <= k <= |fs[d].entries|
    requires FirstFree(fs[d].entries, k) && Unused(fs, d, name) && Tree(fs, home) && Law(fs)
    ensures Tree(Plus(fs, i, d, k, name), home)
  {
    hide Tree, Law, Unused, FirstFree, WithEntry, WithLinks, Live, Dot;
    var n := fs[i].nlink + 1;
    CountNat(fs, i);
    TreeLinks(fs, home, i, n);
    LinkReady(fs, i, n, d, k, name);
    TreeAdded(WithLinks(fs, i, n), home, d, k, name, i);
  }

  lemma CountNat(fs: Fs, i: int)
    requires Law(fs) && i in fs
    ensures fs[i].nlink >= 0
  {
    LawAt(fs, i);
  }

  lemma TreeNotDot(fs: Fs, home: map<int, int>, d: int, k: int, name: Name)
    requires Tree(fs, home) && d in fs && Live(fs[d]) && FirstFree(fs[d].entries, k) && Unused(fs, d, name)
    ensures name != Dot()
  {
    Later(fs, d, k, name);
  }

  lemma LinkReady(fs: Fs, i: int, n: int, d: int, k: int, name: Name)
    requires i in fs && fs[i].kind != DIR && d in fs && Live(fs[d]) && FirstFree(fs[d].entries, k)
             && Unused(fs, d, name)
    ensures var fs1 := WithLinks(fs, i, n);
            && i in fs1 && fs1[i].kind != DIR && d in fs1 && Live(fs1[d]) && FirstFree(fs1[d].entries, k)
            && Unused(fs1, d, name)
            && fs1[d].entries == fs[d].entries
  {
    DirLooksSame(fs, i, n, d, name);
  }

  lemma TreeKeys(fs: Fs, home: map<int, int>)
    requires Tree(fs, home)
    ensures 0 !in fs
  {
    if 0 in fs {
      NonZero(fs, 0);
    }
  }

  lemma DirLooksSame(fs: Fs, i: int, n: int, d: int, name: Name)
    requires i in fs && d in fs
    ensures Unused(WithLinks(fs, i, n), d, name) <==> Unused(fs, d, name)
    ensures WithLinks(fs, i, n)[d].entries == fs[d].entries
  {
  }

  /** An entry found by name is one of a live directory, past the dots, and what it names has a link. */
  lemma Found(fs: Fs, home: map<int, int>, d: int, k: int)
    requires Good(fs, home) && d in fs && fs[d].kind == DIR && 0 <= k < |fs[d].entries| && fs[d].entries[k].inum != 0
    requires fs[d].entries[k].name != Dot() && fs[d].entries[k].name != DotDot()
    ensures k >= 2 && Live(fs[d]) && fs[d].entries[k].inum in fs && fs[fs[d].entries[k].inum].nlink >= 1
    ensures fs[fs[d].entries[k].inum].kind == DIR ==> fs[d].entries[k].inum != d
  {
    hide Names, Law;
    DotsOf(fs, d);
    EntryThere(fs, home, d, k);
    var c := fs[d].entries[k].inum;
    InNames(fs, d, k, c);
    OneLess(Names(fs, c), (d, k));
    LawAt(fs, c);
  }

  /** Unlinking keeps the law. */
  lemma UnlinkLaw(fs: Fs, home: map<int, int>, d: int, k: int)
    requires Good(fs, home) && Stored(fs) && d in fs && fs[d].kind == DIR && 0 <= k < |fs[d].entries|
             && fs[d].entries[k].inum != 0
    requires fs[d].entries[k].name != Dot() && fs[d].entries[k].name != DotDot() && fs[d].entries[k].inum in fs
    requires fs[fs[d].entries[k].inum].kind == DIR ==> IsEmpty(fs[fs[d].entries[k].inum].entries)
    ensures Good(Unlinked(fs, d, k), home)
  {
    hide Entries, Homes, Shapes, Law, Names, WithEntry;
    var c := fs[d].entries[k].inum;
    Found(fs, home, d, k);
    TreeKeys(fs, home);
    ShortLinks(fs, c);
    ShortLinks(fs, d);
    if fs[c].kind == DIR {
      OneName(fs, home, d, k, c);
      UnlinkedDir(fs, d, k, c);
      RemovedLaw(fs, home, d, k, c);
      RemovedTree(fs, home, d, k, c);
    } else {
      UnlinkedFile(fs, d, k, c);
      LawDropped(fs, d, k);
      TreeDropped(fs, home, d, k);
      TreeLinks(WithEntry(fs, d, k, Free()), home, c, fs[c].nlink - 1);
    }
  }

  lemma ShortLinks(fs: Fs, i: int)
    requires Stored(fs) && i in fs
    ensures IsShort(fs[i].nlink)
  {
    assert RecOk(fs[i]);
  }

  lemma UnlinkedDir(fs: Fs, d: int, k: int, c: int)
    requires d in fs && 0 <= k < |fs[d].entries| && fs[d].entries[k].inum == c && c in fs && fs[c].kind == DIR && c != d
    requires 1 <= fs[c].nlink <= MAXLINKS && 1 <= fs[d].nlink <= MAXLINKS
    ensures Unlinked(fs, d, k) == Removed(fs, d, k, c)
  {
  }

  lemma UnlinkedFile(fs: Fs, d: int, k: int, c: int)
    requires d in fs && 0 <= k < |fs[d].entries| && fs[d].entries[k].inum == c && c in fs && fs[c].kind != DIR
             && fs[d].kind == DIR
    requires 1 <= fs[c].nlink <= MAXLINKS
    ensures Unlinked(fs, d, k) == WithLinks(WithEntry(fs, d, k, Free()), c, fs[c].nlink - 1)
    ensures c in WithEntry(fs, d, k, Free()) && WithEntry(fs, d, k, Free())[c].kind == fs[c].kind
  {
  }

  /** Making an inode in a live directory keeps the law; making one in a directory that is not live breaks it,
      or brings that directory back without a place in the tree. */
  lemma CreateLaw(fs: Fs, home: map<int, int>, d: int, k: int, name: Name, c: int, kind: Kind)
    requires Good(fs, home) && Stored(fs) && d in fs && fs[d].kind == DIR && c !in fs && c != 0
    requires FirstFree(fs[d].entries, k) && Find(fs[d].entries, name, 0) == -1
    ensures Live(fs[d]) ==> Good(New(fs, d, k, name, c, kind), if kind == DIR then home[c := k] else home)
    ensures !Live(fs[d]) ==> forall h :: !Good(New(fs, d, k, name, c, kind), h)
    ensures !Live(fs[d]) && kind != DIR ==> !Law(New(fs, d, k, name, c, kind))
  {
    hide Good, Made, WithEntry, Live, Stored, Born, Law;
    LinkEnds(fs, home, c, d, k);
    NoWrap(fs, home, d);
    if kind == DIR {
      MadeIs(fs, d, k, name, c);
    }
    if Live(fs[d]) {
      NewLive(fs, home, d, k, name, c, kind);
    } else {
      if kind != DIR {
        BornLawless(fs, home, d, k, name, c, kind);
      }
      forall h ensures !Good(New(fs, d, k, name, c, kind), h) {
        NewDead(fs, home, d, k, name, c, kind, h);
      }
    }
  }

  lemma BornLawless(fs: Fs, home: map<int, int>, d: int, k: int, name: Name, c: int, kind: Kind)
    requires Good(fs, home) && d in fs && !Live(fs[d]) && 0 <= k <= |fs[d].entries| && c !in fs && c != 0 && kind != DIR
    ensures !Law(New(fs, d, k, name, c, kind))
  {
    hide Homes, Shapes, Law, Names;
    BornDead(fs, home, d, k, name, c, kind);
  }

  /** The link count of a directory does not overflow. */
  lemma NoWrap(fs: Fs, home: map<int, int>, d: int)
    requires Good(fs, home) && Stored(fs) && d in fs && fs[d].kind == DIR
    ensures IsShort(fs[d].nlink + 1)
  {
    hide Tree, Law;
    assert RecOk(fs[d]);
    if Live(fs[d]) {
      DirLinksBound(fs, home, d);
    }
  }

  lemma MadeIs(fs: Fs, d: int, k: int, name: Name, c: int)
    requires d in fs && d != c && 0 <= k <= |fs[d].entries| && IsShort(fs[d].nlink + 1)
    ensures New(fs, d, k, name, c, DIR) == Made(fs, d, k, name, c)
  {
  }

  lemma NewSame(fs: Fs, d: int, name: Name, c: int, ip: Inode)
    requires d in fs && c !in fs && Unused(fs, d, name)
    ensures Unused(fs[c := ip], d, name)
  {
  }

  lemma NewLive(fs: Fs, home: map<int, int>, d: int, k: int, name: Name, c: int, kind: Kind)
    requires Good(fs, home) && CanMake(fs, d, k, name, c) && 0 <= k <= |fs[d].entries|
             && (kind == DIR ==> New(fs, d, k, name, c, DIR) == Made(fs, d, k, name, c))
    ensures Good(New(fs, d, k, name, c, kind), if kind == DIR then home[c := k] else home)
  {
    hide Entries, Homes, Shapes, Law, Names, Unused, Made, WithEntry;
    Later(fs, d, k, name);
    if kind == DIR {
      MadeTree(fs, home, d, k, name, c);
      MadeLaw(fs, home, d, k, name, c);
    } else {
      NewSame(fs, d, name, c, Inode(kind, 1, []));
      BornTree(fs, home, c, kind);
      TreeAdded(fs[c := Inode(kind, 1, [])], home, d, k, name, c);
      BornLaw(fs, home, d, k, name, c, kind);
    }
  }

  lemma Later(fs: Fs, d: int, k: int, name: Name)
    requires Shapes(fs) && d in fs && fs[d].kind == DIR && FirstFree(fs[d].entries, k) && Unused(fs, d, name)
    ensures k >= 2 && name != Dot()
  {
    DotsOf(fs, d);
    DirOkAdded(d, fs[d].entries, k, Dirent(1, name));
  }

  lemma NewDead(fs: Fs, home: map<int, int>, d: int, k: int, name: Name, c: int, kind: Kind, h: map<int, int>)
    requires Good(fs, home) && d in fs && fs[d].kind == DIR && !Live(fs[d]) && FirstFree(fs[d].entries, k)
             && Unused(fs, d, name) && c !in fs && c != 0
    requires 0 <= k <= |fs[d].entries| && (kind == DIR ==> New(fs, d, k, name, c, DIR) == Made(fs, d, k, name, c))
    ensures !Good(New(fs, d, k, name, c, kind), h)
  {
    hide Entries, Homes, Shapes, Law, Names, Unused, Made, WithEntry;
    Later(fs, d, k, name);
    if kind == DIR {
      MadeDead(fs, home, d, k, name, c, h);
    } else {
      BornDead(fs, home, d, k, name, c, kind);
    }
  }

  // ----- what is stored fits

  lemma StoredEntry(fs: Fs, d: int, k: int, e: Dirent)
    requires Stored(fs) && d in fs && 0 <= k <= |fs[d].entries| && k < MAXENTRIES && Normal(e.name)
    ensures Stored(WithEntry(fs, d, k, e))
  {
    hide Normal;
    assert RecOk(fs[d]);
  }

  lemma StoredLinks(fs: Fs, i: int, n: int)
    requires Stored(fs) && i in fs && IsShort(n)
    ensures Stored(WithLinks(fs, i, n))
  {
    hide Normal;
    assert RecOk(fs[i]);
  }

  lemma DotsNormal()
    ensures Normal(Dot()) && Normal(DotDot()) && Normal(Free().name)
    ensures Field([46]) == Dot() && Field([46, 46]) == DotDot()
  {
    UptoIs(Dot(), DIRSIZ, 1);
    UptoIs(DotDot(), DIRSIZ, 2);
    UptoIs(Free().name, DIRSIZ, 0);
    UptoIs([46], DIRSIZ, 1);
    UptoIs([46, 46], DIRSIZ, 2);
  }

  // ----- the operations

  class Directories {
    var inodes: Fs
    ghost var home: map<int, int>

    /** The tree and the law of link counts. */
    ghost predicate Valid()
      reads this
    {
      Good(inodes, home) && Stored(inodes)
    }

    /** A file system with an empty root directory. */
    constructor ()
      ensures Valid() && inodes == RootOnly()
    {
      hide Good, Stored, RootOnly;
      RootGood();
      inodes, home := RootOnly(), map[];
    }

    static function RootOnly(): Fs { map[ROOT := Inode(DIR, 1, [Dirent(ROOT, Dot()), Dirent(ROOT, DotDot())])] }

    static lemma RootGood()
      ensures Good(RootOnly(), map[]) && Stored(RootOnly())
    {
      hide Normal, Tree, Law;
      DotsNormal();
      RootTree();
      RootLaw();
    }

    static lemma RootTree()
      ensures Tree(RootOnly(), map[])
    {
      hide PathNames.Normal;
      var fs := RootOnly();
      assert fs[ROOT].entries[1] == Dirent(ROOT, DotDot()) && fs[ROOT].entries[0] == Dirent(ROOT, Dot());
      assert DirOk(ROOT, fs[ROOT].entries);
      assert Shapes(fs);
      hide DirOk;
    }

    static lemma RootLaw()
      ensures Law(RootOnly())
    {
      var fs := RootOnly();
      forall x, y, i ensures NamedAt(fs, x, y, i) <==> (x, y) == (ROOT, 1) && i == ROOT {
      }
      assert Names(fs, ROOT) == {(ROOT, 1)};
    }

    /** The first entry of directory d in use whose name agrees with `name` in DIRSIZ bytes, or -1. */
    method Dirlookup(d: int, name: seq<int>) returns (k: int)
      requires Stored(inodes) && d in inodes
      ensures k == Find(inodes[d].entries, Field(name), 0)
    {
      hide Normal;
      assert RecOk(inodes[d]);
      var es := inodes[d].entries;
      k := 0;
      while k < |es|
        invariant 0 <= k <= |es| && Find(es, Field(name), k) == Find(es, Field(name), 0)
      {
        if es[k].inum != 0 {
          NormalAt(es, k);
          var c := Namecmp(name, es[k].name);
          if c == 0 {
            return;
          }
        }
        k := k + 1;
      }
      k := -1;
    }

    static lemma NormalAt(es: seq<Dirent>, k: int)
      requires 0 <= k < |es| && forall j :: 0 <= j < |es| ==> Normal(es[j].name)
      ensures Field(es[k].name) == es[k].name
    {
    }

    /** Put a new entry into the first free place of d, unless the name is taken. */
    method Dirlink(d: int, name: seq<int>, i: int) returns (r: Outcome, ghost k: int)
      requires Stored(inodes) && d in inodes
      modifies this`inodes
      ensures Stored(inodes)
      ensures var es := old(inodes)[d].entries;
              if Find(es, Field(name), 0) != -1 then r == Fail && inodes == old(inodes)
              else if Crammed(es) then r == Panic && inodes == old(inodes)
              else r == Ok && FirstFree(es, k) && inodes == WithEntry(old(inodes), d, k, Dirent(i, Field(name)))
    {
      hide Normal, RecOk, Field, Stored;
      k := 0;
      var found := Dirlookup(d, name);
      if found != -1 {
        return Fail, 0;
      }
      var off := 0;
      var es := inodes[d].entries;
      Bounded(inodes, d);
      while off < |es|
        invariant 0 <= off <= |es| && forall j :: 0 <= j < off ==> es[j].inum != 0
      {
        if es[off].inum == 0 {
          break;
        }
        off := off + 1;
      }
      var field := Strncpy(name, DIRSIZ);
      FieldIs(name);
      FieldNormal(name);
      if off >= MAXENTRIES {
        return Panic, 0;
      }
      StoredEntry(inodes, d, off, Dirent(i, field));
      var e := Dirent(i, field);
      inodes := inodes[d := inodes[d].(entries := if off == |es| then es + [e] else es[off := e])];
      return Ok, off;
    }

    static lemma FieldIs(name: seq<int>)
      ensures Field(name) == Pad(Upto(name, DIRSIZ), DIRSIZ)
    {
    }

    static lemma Bounded(fs: Fs, d: int)
      requires Stored(fs) && d in fs
      ensures |fs[d].entries| <= MAXENTRIES
    {
      assert RecOk(fs[d]);
    }

    /** namex: the inode of a path, or the directory of its last element, whose bytes are left in name.  cwd is
        the caller's working directory, name's first contents do not matter. */
    method Namex(cwd: int, path: seq<int>, parent: bool, buf: seq<int>) returns (r: Lookup, name: seq<int>)
      requires Stored(inodes) && IsPath(path) && |buf| == DIRSIZ
      ensures r == Resolve(inodes, Start(path, cwd), Elems(path, 0), parent)
      ensures |name| == DIRSIZ && (parent && r.At? ==> Elems(path, 0) != [] && Field(name) == Last(path))
    {
      hide Stored, Field, Elems, AfterSlashes, IsPath;
      var ip := if path != [] && path[0] == SLASH then ROOT else cwd;
      var pos := 0;
      name := buf;
      ghost var all := Elems(path, 0);
      while true
        invariant 0 <= pos <= |path| && |name| == DIRSIZ && IsPath(path)
        invariant Resolve(inodes, ip, Elems(path, pos), parent) == Resolve(inodes, Start(path, cwd), all, parent)
        invariant Elems(path, pos) != [] ==> all != [] && Ending(Elems(path, pos)) == Ending(all)
        decreases |path| - pos
      {
        ghost var rest := Elems(path, pos);
        var next;
        next, name := Skipelem(path, pos, name);
        if next == -1 {
          break;
        }
        assert rest[1..] == Elems(path, next);
        if ip !in inodes {
          return Panicked, name;
        }
        if inodes[ip].kind != DIR {
          return Absent, name;
        }
        if parent && next == |path| {
          return At(ip), name;
        }
        var k := Dirlookup(ip, name);
        if k == -1 {
          return Absent, name;
        }
        ip := inodes[ip].entries[k].inum;
        pos := next;
      }
      r := if parent then Absent else At(ip);
    }

    static ghost function Ending(es: seq<Name>): Name
      requires es != []
    {
      es[|es| - 1]
    }

    /** No entry is in use after the two dots. */
    method Isdirempty(d: int) returns (r: bool)
      requires d in inodes
      ensures r <==> IsEmpty(inodes[d].entries)
    {
      var off := 2;
      while off < |inodes[d].entries|
        invariant 2 <= off && forall k :: 2 <= k < off && k < |inodes[d].entries| ==> inodes[d].entries[k].inum == 0
      {
        if inodes[d].entries[off].inum != 0 {
          return false;
        }
        off := off + 1;
      }
      return true;
    }

    /** Store a link count in its 16 bits. */
    method SetLinks(i: int, n: int)
      requires Stored(inodes) && i in inodes
      modifies this`inodes
      ensures Stored(inodes) && inodes == WithLinks(old(inodes), i, Short(n))
    {
      hide Stored;
      StoredLinks(inodes, i, Short(n));
      inodes := inodes[i := inodes[i].(nlink := Short(n))];
    }

    /** sys_link.  A link that fails leaves every link count as it was.  One that succeeds keeps the law exactly
        when the directory of the new name is live and the file had fewer than MAXLINKS links. */
    method Link(cwd: int, from: seq<int>, to: seq<int>) returns (r: Outcome, ghost k: int)
      requires Stored(inodes) && IsPath(from) && IsPath(to)
      modifies this`inodes
      ensures r != Panic ==> Stored(inodes)
      ensures LinkSpec(old(inodes), cwd, from, to, r, k, inodes)
      ensures old(Valid()) && r == Ok ==> LinkKeeps(old(inodes), cwd, from, to, inodes, home)
    {
      hide Stored, Good, Elems, Field, Resolve, LinkSpec, Law, Normal;
      ghost var fs := inodes;
      r, k := Fail, 0;
      assert |Dot()| == DIRSIZ;
      var buf :| |buf| == DIRSIZ;
      var ip, name := Namex(cwd, from, false, buf);
      if ip.Panicked? || (ip.At? && ip.i !in inodes) {
        NoFile(fs, cwd, from, to, Panic, k, inodes);
        return Panic, 0;
      }
      if ip.Absent? || inodes[ip.i].kind == DIR {
        NoFile(fs, cwd, from, to, Fail, k, inodes);
        return;
      }
      var i := ip.i;
      SetLinks(i, inodes[i].nlink + 1);
      ResolveLinks(fs, i, Short(fs[i].nlink + 1), Start(to, cwd), Elems(to, 0), true);
      var dp;
      dp, name := Namex(cwd, to, true, name);
      if dp.Panicked? {
        NoParent(fs, cwd, from, to, Panic, k, inodes);
        return Panic, 0;
      }
      if dp.At? {
        SameDir(fs, i, Short(fs[i].nlink + 1), cwd, to);
        r, k := Dirlink(dp.i, name, i);
        if r == Panic {
          LinkedIn(fs, cwd, from, to, r, k, inodes);
          return;
        }
      }
      if r == Fail {
        SetLinks(i, inodes[i].nlink - 1);
        Restored(fs, i);
        if dp.At? {
          LinkedIn(fs, cwd, from, to, r, k, inodes);
        } else {
          NoParent(fs, cwd, from, to, Fail, k, inodes);
        }
        return;
      }
      LinkedIn(fs, cwd, from, to, r, k, inodes);
      if Good(fs, home) && Stored(fs) {
        LinkLaw(fs, home, i, dp.i, k, Last(to));
        KeepsLaw(fs, cwd, from, to, k, home);
      }
    }

    static ghost predicate LinkKeeps(fs: Fs, cwd: int, from: seq<int>, to: seq<int>, fs': Fs, home: map<int, int>) {
      && Namei(fs, cwd, from).At? && Nameiparent(fs, cwd, to).At? && Namei(fs, cwd, from).i in fs
      && var ip, dp := fs[Namei(fs, cwd, from).i], fs[Nameiparent(fs, cwd, to).i];
         (Law(fs') <==> Live(dp) && ip.nlink < MAXLINKS) && (Live(dp) && ip.nlink < MAXLINKS ==> Good(fs', home))
    }

    static lemma KeepsLaw(fs: Fs, cwd: int, from: seq<int>, to: seq<int>, k: int, home: map<int, int>)
      requires Namei(fs, cwd, from).At? && Nameiparent(fs, cwd, to).At? && Namei(fs, cwd, from).i in fs
      requires 0 <= k <= |fs[Nameiparent(fs, cwd, to).i].entries|
      requires var i, d := Namei(fs, cwd, from).i, Nameiparent(fs, cwd, to).i;
               && (Law(Linked(fs, i, d, k, Last(to))) <==> Live(fs[d]) && fs[i].nlink < MAXLINKS)
               && (Live(fs[d]) && fs[i].nlink < MAXLINKS ==> Good(Linked(fs, i, d, k, Last(to)), home))
      ensures LinkKeeps(fs, cwd, from, to,
                Linked(fs, Namei(fs, cwd, from).i, Nameiparent(fs, cwd, to).i, k, Last(to)), home)
    {
      hide Law, Good, Linked;
    }

    static lemma Restored(fs: Fs, i: int)
      requires Stored(fs) && i in fs
      ensures var fs1 := WithLinks(fs, i, Short(fs[i].nlink + 1)); WithLinks(fs1, i, Short(fs1[i].nlink - 1)) == fs
    {
      assert RecOk(fs[i]);
      assert fs[i := fs[i]] == fs;
    }

    static lemma SameDir(fs: Fs, i: int, n: int, cwd: int, to: seq<int>)
      requires i in fs && Nameiparent(fs, cwd, to).At?
      ensures var d := Nameiparent(fs, cwd, to).i;
              && d in WithLinks(fs, i, n) && WithLinks(fs, i, n)[d].entries == fs[d].entries
    {
      hide Resolve, Elems;
    }

    static lemma NoFile(fs: Fs, cwd: int, from: seq<int>, to: seq<int>, r: Outcome, k: int, fs': Fs)
      requires var a := Namei(fs, cwd, from);
               if a.Panicked? || (a.At? && a.i !in fs) then r == Panic
               else (a.Absent? || fs[a.i].kind == DIR) && r == Fail && fs' == fs
      ensures LinkSpec(fs, cwd, from, to, r, k, fs')
    {
      hide Namei, LinkIn;
    }

    static lemma NoParent(fs: Fs, cwd: int, from: seq<int>, to: seq<int>, r: Outcome, k: int, fs': Fs)
      requires var a := Namei(fs, cwd, from); a.At? && a.i in fs && fs[a.i].kind != DIR
      requires var b := Nameiparent(fs, cwd, to); (b.Panicked? && r == Panic) || (b.Absent? && r == Fail && fs' == fs)
      ensures LinkSpec(fs, cwd, from, to, r, k, fs')
    {
      hide Namei, Nameiparent, LinkIn;
    }

    static lemma LinkedIn(fs: Fs, cwd: int, from: seq<int>, to: seq<int>, r: Outcome, k: int, fs': Fs)
      requires var a := Namei(fs, cwd, from); a.At? && a.i in fs && fs[a.i].kind != DIR
      requires Nameiparent(fs, cwd, to).At?
      requires LinkIn(fs, Namei(fs, cwd, from).i, Nameiparent(fs, cwd, to).i, Last(to), r, k, fs')
      ensures LinkSpec(fs, cwd, from, to, r, k, fs')
    {
      hide Namei, Nameiparent, LinkIn;
    }

    /** sys_unlink.  In a file system that obeys the law it goes on to do so, only a lookup can panic, and a
        directory goes only when it is empty. */
    method Unlink(cwd: int, path: seq<int>) returns (r: Outcome, ghost k: int)
      requires Stored(inodes) && IsPath(path)
      modifies this`inodes
      ensures Stored(inodes)
      ensures UnlinkSpec(old(inodes), cwd, path, r, k, inodes)
      ensures old(Valid()) ==> Valid() && (r == Panic ==> Nameiparent(inodes, cwd, path).Panicked?)
    {
      hide Stored, Good, Elems, Field, Resolve, UnlinkSpec, Normal;
      ghost var fs := inodes;
      r, k := Fail, 0;
      assert |Dot()| == DIRSIZ;
      var buf :| |buf| == DIRSIZ;
      var dp, name := Namex(cwd, path, true, buf);
      if !dp.At? {
        NoDir(fs, cwd, path, if dp.Panicked? then Panic else Fail, k);
        return if dp.Panicked? then Panic else Fail, 0;
      }
      assert dp == Nameiparent(inodes, cwd, path);
      r, k := UnlinkAt(dp.i, name);
      UnlinkedIn(fs, cwd, path, r, k, inodes);
    }

    static lemma NoDir(fs: Fs, cwd: int, path: seq<int>, r: Outcome, k: int)
      requires var a := Nameiparent(fs, cwd, path); !a.At? && r == if a.Panicked? then Panic else Fail
      ensures UnlinkSpec(fs, cwd, path, r, k, fs)
    {
      hide Nameiparent, UnlinkIn;
    }

    static lemma UnlinkedIn(fs: Fs, cwd: int, path: seq<int>, r: Outcome, k: int, fs': Fs)
      requires Nameiparent(fs, cwd, path).At? && UnlinkIn(fs, Nameiparent(fs, cwd, path).i, Last(path), r, k, fs')
      ensures UnlinkSpec(fs, cwd, path, r, k, fs')
    {
      hide Nameiparent, UnlinkIn;
    }

    /** The part of sys_unlink after the lookup of the directory. */
    method UnlinkAt(d: int, name: seq<int>) returns (r: Outcome, ghost k: int)
      requires Stored(inodes) && d in inodes && inodes[d].kind == DIR
      modifies this`inodes
      ensures Stored(inodes) && UnlinkIn(old(inodes), d, Field(name), r, k, inodes)
      ensures old(Valid()) ==> Valid() && r != Panic
    {
      hide Stored, Good, Field, Normal, Unlinked;
      ghost var fs := inodes;
      r, k := Fail, 0;
      DotsNormal();
      var a := Namecmp(name, [46]);
      var b := Namecmp(name, [46, 46]);
      if a == 0 || b == 0 {
        return;
      }
      var off := Dirlookup(d, name);
      if off == -1 {
        return;
      }
      k := off;
      var i := inodes[d].entries[off].inum;
      if Good(fs, home) {
        Found(fs, home, d, off);
      }
      if i !in inodes || inodes[i].nlink < 1 {
        return Panic, k;
      }
      if inodes[i].kind == DIR {
        var empty := Isdirempty(i);
        if !empty {
          return;
        }
      }
      RemoveEntry(d, off);
      if Good(fs, home) && Stored(fs) {
        UnlinkLaw(fs, home, d, off);
      }
      r := Ok;
    }

    /** Clear the entry and count the links down. */
    method RemoveEntry(d: int, off: int)
      requires Stored(inodes) && d in inodes && 0 <= off < |inodes[d].entries| && inodes[d].entries[off].inum in inodes
      modifies this`inodes
      ensures Stored(inodes) && inodes == Unlinked(old(inodes), d, off)
    {
      hide Stored, Normal;
      DotsNormal();
      Bounded(inodes, d);
      var i := inodes[d].entries[off].inum;
      StoredEntry(inodes, d, off, Free());
      inodes := inodes[d := inodes[d].(entries := inodes[d].entries[off := Free()])];
      if inodes[i].kind == DIR {
        SetLinks(d, inodes[d].nlink - 1);
      }
      SetLinks(i, inodes[i].nlink - 1);
    }

    /** create, with c the inode that ialloc finds free.  num is the inode found or made.  Making one in a live
        directory keeps the law; in a directory that is not live it breaks it, whatever the tree. */
    method Create(cwd: int, path: seq<int>, kind: Kind, c: int) returns (r: Outcome, num: int, ghost k: int)
      requires Stored(inodes) && IsPath(path) && c !in inodes && c != 0
      modifies this`inodes, this`home
      ensures r != Panic ==> Stored(inodes)
      ensures CreateSpec(old(inodes), cwd, path, kind, c, r, num, k, inodes)
      ensures old(Valid()) && r != Panic && inodes == old(inodes) ==> Valid()
      ensures old(Valid()) && r == Ok && inodes != old(inodes) ==>
                var d := old(inodes)[Nameiparent(old(inodes), cwd, path).i];
                (Live(d) ==> Valid()) && (!Live(d) ==> forall h :: !Good(inodes, h))
                  && (!Live(d) && kind != DIR ==> !Law(inodes))
    {
      hide Stored, Good, Elems, Field, Resolve, CreateSpec, Normal, Live;
      ghost var fs := inodes;
      r, num, k := Fail, 0, 0;
      assert |Dot()| == DIRSIZ;
      var buf :| |buf| == DIRSIZ;
      var dp, name := Namex(cwd, path, true, buf);
      if !dp.At? {
        NoPlace(fs, cwd, path, kind, c, if dp.Panicked? then Panic else Fail, 0, 0);
        return if dp.Panicked? then Panic else Fail, 0, 0;
      }
      assert dp == Nameiparent(inodes, cwd, path);
      r, num, k := CreateAt(dp.i, name, kind, c);
      CreatedIn(fs, cwd, path, kind, c, r, num, k, inodes);
    }

    static lemma NoPlace(fs: Fs, cwd: int, path: seq<int>, kind: Kind, c: int, r: Outcome, num: int, k: int)
      requires c !in fs && var a := Nameiparent(fs, cwd, path); !a.At? && r == if a.Panicked? then Panic else Fail
      ensures CreateSpec(fs, cwd, path, kind, c, r, num, k, fs)
    {
      hide Nameiparent, CreateIn;
    }

    static lemma CreatedIn(fs: Fs, cwd: int, path: seq<int>, kind: Kind, c: int, r: Outcome, num: int, k: int, fs': Fs)
      requires c !in fs && Nameiparent(fs, cwd, path).At?
               && CreateIn(fs, Nameiparent(fs, cwd, path).i, Last(path), kind, c, r, num, k, fs')
      ensures CreateSpec(fs, cwd, path, kind, c, r, num, k, fs')
    {
      hide Nameiparent, CreateIn;
    }

    /** The part of create after the lookup of the directory. */
    method CreateAt(d: int, name: seq<int>, kind: Kind, c: int) returns (r: Outcome, num: int, ghost k: int)
      requires Stored(inodes) && d in inodes && inodes[d].kind == DIR && c !in inodes && c != 0
      modifies this`inodes, this`home
      ensures r != Panic ==> Stored(inodes)
      ensures CreateIn(old(inodes), d, Field(name), kind, c, r, num, k, inodes)
      ensures inodes == old(inodes) ==> home == old(home)
      ensures old(Valid()) && r == Ok && inodes != old(inodes) ==>
                && (Live(old(inodes)[d]) ==> Good(inodes, home))
                && (!Live(old(inodes)[d]) ==> forall h :: !Good(inodes, h))
                && (!Live(old(inodes)[d]) && kind != DIR ==> !Law(inodes))
    {
      hide Stored, Good, Field, Normal, Live;
      ghost var fs := inodes;
      r, num, k := Fail, 0, 0;
      var off := Dirlookup(d, name);
      if off != -1 {
        var i := inodes[d].entries[off].inum;
        if i !in inodes {
          return Panic, 0, 0;
        }
        if kind == FILE && (inodes[i].kind == FILE || inodes[i].kind == DEVICE) {
          return Ok, i, 0;
        }
        return;
      }
      NewStored(fs, c, Inode(kind, 1, []));
      inodes := inodes[c := Inode(kind, 1, [])];
      if kind == DIR {
        SetLinks(d, inodes[d].nlink + 1);
        Dots(d, c);
        MadeSteps(fs, d, c);
      }
      r, k := Dirlink(d, name, c);
      if r == Ok {
        NewIs(fs, inodes, d, k, Field(name), c, kind);
        if Good(fs, home) && Stored(fs) {
          CreateLaw(fs, home, d, k, Field(name), c, kind);
        }
        if kind == DIR {
          home := home[c := k];
        }
      }
      num := c;
    }

    static lemma NewIs(fs: Fs, fs': Fs, d: int, k: int, name: Name, c: int, kind: Kind)
      requires d in fs && c !in fs && 0 <= k <= |fs[d].entries|
      requires kind == DIR ==> fs' == WithEntry(WithLinks(fs[c := Inode(DIR, 1,
                 [Dirent(c, Dot()), Dirent(d, DotDot())])], d, Short(fs[d].nlink + 1)), d, k, Dirent(c, name))
      requires kind != DIR ==> fs' == WithEntry(fs[c := Inode(kind, 1, [])], d, k, Dirent(c, name))
      ensures fs' == New(fs, d, k, name, c, kind) && fs' != fs
    {
      assert c in fs';
    }

    static lemma NewStored(fs: Fs, c: int, ip: Inode)
      requires Stored(fs) && RecOk(ip)
      ensures Stored(fs[c := ip])
    {
      hide Normal;
    }

    /** The first two entries of a new directory. */
    method Dots(d: int, c: int)
      requires Stored(inodes) && c in inodes && inodes[c].entries == [] && c != 0
      modifies this`inodes
      ensures Stored(inodes)
              && inodes == old(inodes)[c := old(inodes)[c].(entries := [Dirent(c, Dot()), Dirent(d, DotDot())])]
    {
      hide Stored, Normal, Field, Dot, DotDot;
      DotsNormal();
      ghost var k;
      var r;
      r, k := Dirlink(c, [46], c);
      assert inodes[c].entries == [Dirent(c, Dot())];
      r, k := Dirlink(c, [46, 46], d);
      assert inodes[c].entries == [Dirent(c, Dot()), Dirent(d, DotDot())];
    }

    static lemma MadeSteps(fs: Fs, d: int, c: int)
      requires d in fs && c !in fs
      ensures var fs1 := fs[c := Inode(DIR, 1, [])];
              var fs2 := WithLinks(fs1, d, Short(fs1[d].nlink + 1));
              var fs3 := fs2[c := fs2[c].(entries := [Dirent(c, Dot()), Dirent(d, DotDot())])];
              && fs3 == WithLinks(fs[c := Inode(DIR, 1, [Dirent(c, Dot()), Dirent(d, DotDot())])], d,
                   Short(fs[d].nlink + 1))
              && fs3[d].entries == fs[d].entries
    {
    }

    /** iput of the last reference to an inode without links. */
    method Reclaim(i: int)
      requires Valid() && i in inodes && inodes[i].nlink == 0
      modifies this`inodes
      ensures Valid() && inodes == old(inodes) - {i}
    {
      hide Good;
      FreedGood(inodes, home, i);
      inodes := inodes - {i};
    }
  }
}
