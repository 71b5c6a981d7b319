/**
 * Link counts and the directory tree behind dirlink, create, sys_link and sys_unlink (kernel/fs.c,
 * kernel/sysfile.c), as values: what each change of an entry or a link count does to the names of an inode, and
 * what keeps the law that a link count is the number of names.
 */
module Links {
  import opened PathNames

  const ROOT: int := 1

  datatype Kind = DIR | FILE | DEVICE

  /** The name field of a directory entry. */
  type Name = seq<int>

  function Dot(): (n: Name)
    ensures |n| == DIRSIZ && n[1] == 0 && n[0] == 46
  {
    [46, 0, 0, 0, 0, 0, 0, 0, 0, 0, 0, 0, 0, 0]
  }

  function DotDot(): (n: Name)
    ensures |n| == DIRSIZ && n[1] == 46 && n[0] == 46
  {
    [46, 46, 0, 0, 0, 0, 0, 0, 0, 0, 0, 0, 0, 0]
  }

  /** An entry that unlink has cleared. */
  function Free(): (e: Dirent)
    ensures e.inum == 0
  {
    Dirent(0, [0, 0, 0, 0, 0, 0, 0, 0, 0, 0, 0, 0, 0, 0])
  }

  /** inum 0 marks a free entry. */
  datatype Dirent = Dirent(inum: int, name: Name)

  datatype Inode = Inode(kind: Kind, nlink: int, entries: seq<Dirent>)

  type Fs = map<int, Inode>

  /** A directory that can still be reached by name. */
  predicate Live(ip: Inode) { ip.kind == DIR && ip.nlink > 0 }

  /** Entry k of directory d names i, and counts: "." does not. */
  predicate NamedAt(fs: Fs, d: int, k: int, i: int) {
    d in fs && Live(fs[d]) && 0 <= k < |fs[d].entries| && fs[d].entries[k].inum == i && fs[d].entries[k].name != Dot()
  }

  /** The places that name inode i. */
  ghost function Names(fs: Fs, i: int): set<(int, int)> {
    set d, k | d in fs && 0 <= k < |fs[d].entries| && NamedAt(fs, d, k, i) :: (d, k)
  }

  /** Each link count is the number of names. */
  ghost predicate Law(fs: Fs) {
    forall i :: i in fs ==> |Names(fs, i)| == fs[i].nlink
  }

  // ----- shape of directories

  /** "." and ".." come first and their names are not used again; other names are unique. */
  ghost predicate DirOk(d: int, es: seq<Dirent>) {
    && |es| >= 2 && es[0] == Dirent(d, Dot()) && es[1].name == DotDot() && es[1].inum != 0 && d != 0
    && (forall k :: 2 <= k < |es| && es[k].inum != 0 ==> es[k].name != Dot() && es[k].name != DotDot())
    && (forall j, k :: 2 <= j < |es| && 2 <= k < |es| && es[j].inum != 0 && es[k].inum != 0 ==>
          es[j].name == es[k].name ==> j == k)
  }

  ghost predicate ShapeOk(d: int, ip: Inode) {
    && d != 0 && (ip.kind == DIR ==> ip.nlink >= 0) && (ip.kind != DIR ==> ip.entries == [])
    && (ip.kind == DIR ==> DirOk(d, ip.entries))
    && (ip.kind == DIR && !Live(ip) ==> forall k :: 2 <= k < |ip.entries| ==> ip.entries[k].inum == 0)
  }

  ghost predicate Shapes(fs: Fs) {
    forall d :: d in fs ==> ShapeOk(d, fs[d])
  }

  ghost predicate Entries(fs: Fs, home: map<int, int>) {
    forall d, k :: d in fs && Live(fs[d]) && 0 <= k < |fs[d].entries| && fs[d].entries[k].inum != 0 ==>
      EntryOk(fs, home, d, k, fs[d].entries[k].inum)
  }

  ghost predicate Homes(fs: Fs, home: map<int, int>) {
    forall c :: c in fs && Live(fs[c]) && c != ROOT ==> Placed(fs, home, c)
  }

  ghost predicate RootOk(fs: Fs) {
    ROOT in fs && Live(fs[ROOT]) && |fs[ROOT].entries| >= 2 && fs[ROOT].entries[1].inum == ROOT
  }

  /** home[c] is the entry of c's parent that names directory c. */
  ghost predicate Tree(fs: Fs, home: map<int, int>) {
    RootOk(fs) && Shapes(fs) && Entries(fs, home) && Homes(fs, home)
  }

  /** An entry of a live directory names an inode that is there; a directory it names is its child. */
  ghost predicate EntryOk(fs: Fs, home: map<int, int>, d: int, k: int, c: int) {
    && c in fs
    && (k >= 2 && fs[c].kind == DIR ==>
          && Live(fs[c]) && c != ROOT && c != d && |fs[c].entries| >= 2 && fs[c].entries[1].inum == d && c in home
          && home[c] == k)
    && (k == 1 ==> fs[c].kind == DIR && Live(fs[c]))
  }

  /** A live directory other than the root is listed in its parent. */
  ghost predicate Placed(fs: Fs, home: map<int, int>, c: int)
    requires c in fs
  {
    && |fs[c].entries| >= 2 && c in home
    && var d := fs[c].entries[1].inum;
       d in fs && Live(fs[d]) && d != c && 2 <= home[c] < |fs[d].entries| && fs[d].entries[home[c]].inum == c
  }

  ghost predicate Good(fs: Fs, home: map<int, int>) {
    Tree(fs, home) && Law(fs)
  }

  // ----- how names change

  /** Directory d with entry k set to e; k may be one past the end. */
  function Set(es: seq<Dirent>, k: int, e: Dirent): seq<Dirent>
    requires 0 <= k <= |es|
  {
    if k == |es| then es + [e] else es[k := e]
  }

  function WithEntry(fs: Fs, d: int, k: int, e: Dirent): Fs
    requires d in fs && 0 <= k <= |fs[d].entries|
  {
    fs[d := fs[d].(entries := Set(fs[d].entries, k, e))]
  }

  /** Filling a free entry of a live directory adds one name. */
  lemma NamesAdded(fs: Fs, d: int, k: int, e: Dirent, i: int)
    requires d in fs && Live(fs[d]) && 0 <= k <= |fs[d].entries| && (k < |fs[d].entries| ==> fs[d].entries[k].inum == 0)
    requires e.inum != 0 && e.name != Dot() && i != 0
    ensures (d, k) !in Names(fs, i)
    ensures Names(WithEntry(fs, d, k, e), i) == if i == e.inum then Names(fs, i) + {(d, k)} else Names(fs, i)
  {
    var fs' := WithEntry(fs, d, k, e);
    forall x, y ensures NamedAt(fs', x, y, i) <==> NamedAt(fs, x, y, i) || ((x, y) == (d, k) && i == e.inum) {
    }
  }

  /** Filling a free entry of a directory that is not live adds none. */
  lemma NamesHidden(fs: Fs, d: int, k: int, e: Dirent, i: int)
    requires d in fs && !Live(fs[d]) && 0 <= k <= |fs[d].entries|
    ensures Names(WithEntry(fs, d, k, e), i) == Names(fs, i)
  {
    var fs' := WithEntry(fs, d, k, e);
    forall x, y ensures NamedAt(fs', x, y, i) <==> NamedAt(fs, x, y, i) {
    }
  }

  lemma NamesDropped(fs: Fs, d: int, k: int, i: int)
    requires d in fs && Live(fs[d]) && 0 <= k < |fs[d].entries| && fs[d].entries[k].inum != 0
             && fs[d].entries[k].name != Dot() && i != 0
    ensures var c := fs[d].entries[k].inum;
            && (i == c ==> (d, k) in Names(fs, i))
            && Names(WithEntry(fs, d, k, Free()), i) == if i == c then Names(fs, i) - {(d, k)} else Names(fs, i)
  {
    var fs' := WithEntry(fs, d, k, Free());
    forall x, y ensures NamedAt(fs', x, y, i) <==> NamedAt(fs, x, y, i) && (x, y) != (d, k) {
    }
    assert NamedAt(fs, d, k, fs[d].entries[k].inum);
  }

  function WithLinks(fs: Fs, i: int, n: int): Fs
    requires i in fs
  {
    fs[i := fs[i].(nlink := n)]
  }

  /** Changing a link count without killing or reviving a directory changes no names. */
  lemma NamesLinks(fs: Fs, j: int, n: int, i: int)
    requires j in fs && (fs[j].kind == DIR ==> (fs[j].nlink > 0 <==> n > 0))
    ensures Names(WithLinks(fs, j, n), i) == Names(fs, i)
  {
    var fs' := WithLinks(fs, j, n);
    forall x, y ensures NamedAt(fs', x, y, i) <==> NamedAt(fs, x, y, i) {
    }
  }

  /** A directory with only its dots that loses its last link takes its ".." with it. */
  lemma NamesBuried(fs: Fs, c: int, i: int)
    requires c in fs && Live(fs[c]) && DirOk(c, fs[c].entries)
             && (forall k :: 2 <= k < |fs[c].entries| ==> fs[c].entries[k].inum == 0) && i != 0
    ensures var d := fs[c].entries[1].inum;
            && (i == d ==> (c, 1) in Names(fs, i))
            && Names(WithLinks(fs, c, 0), i) == if i == d then Names(fs, i) - {(c, 1)} else Names(fs, i)
  {
    var fs' := WithLinks(fs, c, 0);
    forall x, y ensures NamedAt(fs', x, y, i) <==> NamedAt(fs, x, y, i) && x != c {
    }
    assert NamedAt(fs, c, 1, fs[c].entries[1].inum);
  }

  /** A new inode: a file names nothing, a directory names its parent. */
  lemma NamesBorn(fs: Fs, c: int, ip: Inode, i: int)
    requires c !in fs && i != 0 && c != 0
    requires ip.entries == []
               || (Live(ip) && |ip.entries| == 2 && ip.entries[0] == Dirent(c, Dot()) && ip.entries[1].name == DotDot())
    ensures (c, 1) !in Names(fs, i)
    ensures Names(fs[c := ip], i) == if ip.entries != [] && i == ip.entries[1].inum then Names(fs, i) + {(c, 1)}
              else Names(fs, i)
  {
    var fs' := fs[c := ip];
    forall x, y
      ensures NamedAt(fs', x, y, i) <==>
                NamedAt(fs, x, y, i) || (x == c && y == 1 && ip.entries != [] && i == ip.entries[1].inum)
    {
    }
  }

  lemma NamesGone(fs: Fs, c: int, i: int)
    requires c in fs && !Live(fs[c])
    ensures Names(fs - {c}, i) == Names(fs, i)
  {
    var fs' := fs - {c};
    forall x, y ensures NamedAt(fs', x, y, i) <==> NamedAt(fs, x, y, i) {
    }
  }

  // ----- laws kept

  /** No entry of directory d in use has this name. */
  ghost predicate Unused(fs: Fs, d: int, name: Name)
    requires d in fs
  {
    forall j :: 0 <= j < |fs[d].entries| && fs[d].entries[j].inum != 0 ==> fs[d].entries[j].name != name
  }

  /** k is where dirlink puts a new entry. */
  ghost predicate FirstFree(es: seq<Dirent>, k: int) {
    0 <= k <= |es| && (k < |es| ==> es[k].inum == 0) && forall j :: 0 <= j < k ==> es[j].inum != 0
  }

  lemma DirOkAdded(d: int, es: seq<Dirent>, k: int, e: Dirent)
    requires DirOk(d, es) && FirstFree(es, k) && e.inum != 0
    requires forall j :: 0 <= j < |es| && es[j].inum != 0 ==> es[j].name != e.name
    ensures k >= 2 && DirOk(d, Set(es, k, e)) && e.name != Dot() && e.name != DotDot()
  {
    assert es[0].name == Dot() && es[1].name == DotDot();
  }

  lemma DirOkDropped(d: int, es: seq<Dirent>, k: int)
    requires DirOk(d, es) && 2 <= k < |es|
    ensures DirOk(d, Set(es, k, Free()))
  {
  }

  /** What a change of one directory's later entries, or of link counts, leaves alone. */
  ghost predicate Alike(fs: Fs, fs': Fs) {
    && fs'.Keys == fs.Keys
    && (forall x :: x in fs ==>
          fs'[x].kind == fs[x].kind && (Live(fs'[x]) <==> Live(fs[x])) && |fs'[x].entries| >= |fs[x].entries|)
    && (forall x :: x in fs && |fs[x].entries| >= 2 ==> fs'[x].entries[1] == fs[x].entries[1])
  }

  lemma EntryAlike(fs: Fs, fs': Fs, home: map<int, int>, d: int, k: int, c: int)
    requires Alike(fs, fs') && EntryOk(fs, home, d, k, c)
    ensures EntryOk(fs', home, d, k, c)
  {
  }

  lemma PlacedAlike(fs: Fs, fs': Fs, home: map<int, int>, c: int)
    requires Alike(fs, fs') && c in fs && Live(fs[c]) && Placed(fs, home, c) && c != 0
             && (forall d, k :: Stays(fs, fs', d, k))
    ensures Placed(fs', home, c)
  {
    assert Stays(fs, fs', fs[c].entries[1].inum, home[c]);
  }

  /** Entry k of d goes on naming what it names, if that is a directory. */
  ghost predicate Stays(fs: Fs, fs': Fs, d: int, k: int) {
    d in fs && d in fs' && 0 <= k < |fs[d].entries| && k < |fs'[d].entries| && fs[d].entries[k].inum in fs
      && Live(fs[fs[d].entries[k].inum]) ==>
      fs'[d].entries[k].inum == fs[d].entries[k].inum
  }

  /** Each entry in use is one that was there, or fine. */
  ghost predicate Known(fs: Fs, fs': Fs, home: map<int, int>, d: int, k: int) {
    d in fs' && Live(fs'[d]) && 0 <= k < |fs'[d].entries| && fs'[d].entries[k].inum != 0 ==>
      || (d in fs && Live(fs[d]) && k < |fs[d].entries| && fs[d].entries[k].inum == fs'[d].entries[k].inum)
      || EntryOk(fs', home, d, k, fs'[d].entries[k].inum)
  }

  lemma TreeAlike(fs: Fs, fs': Fs, home: map<int, int>)
    requires Tree(fs, home) && Alike(fs, fs') && Shapes(fs')
    requires forall d, k :: Stays(fs, fs', d, k) && Known(fs, fs', home, d, k)
    ensures Tree(fs', home)
  {
    hide Shapes, EntryOk, Placed, Stays;
    assert RootOk(fs');
    forall x, y | x in fs' && Live(fs'[x]) && 0 <= y < |fs'[x].entries| && fs'[x].entries[y].inum != 0
      ensures EntryOk(fs', home, x, y, fs'[x].entries[y].inum)
    {
      assert Known(fs, fs', home, x, y);
      if x in fs && Live(fs[x]) && y < |fs[x].entries| && fs[x].entries[y].inum == fs'[x].entries[y].inum {
        EntryAlike(fs, fs', home, x, y, fs[x].entries[y].inum);
      }
    }
    hide Known;
    forall x | x in fs' && Live(fs'[x]) && x != ROOT ensures Placed(fs', home, x) {
      NonZero(fs, x);
      PlacedAlike(fs, fs', home, x);
    }
  }

  lemma NonZero(fs: Fs, x: int)
    requires Shapes(fs) && x in fs
    ensures x != 0
  {
    assert ShapeOk(x, fs[x]);
  }

  /** Filling a free entry of live directory d with a file. */
  lemma TreeAdded(fs: Fs, home: map<int, int>, d: int, k: int, name: Name, c: int)
    requires Tree(fs, home) && d in fs && Live(fs[d]) && FirstFree(fs[d].entries, k) && Unused(fs, d, name) && c in fs
             && fs[c].kind != DIR
    ensures k >= 2 && name != Dot() && Tree(WithEntry(fs, d, k, Dirent(c, name)), home)
  {
    hide Entries, Homes, Shapes, Alike, Stays, Known, Unused;
    if 0 in fs {
      NonZero(fs, 0);
    }
    AddedShapes(fs, d, k, name, c);
    var fs' := WithEntry(fs, d, k, Dirent(c, name));
    forall x, y ensures Stays(fs, fs', x, y) && Known(fs, fs', home, x, y) {
      AddedEntry(fs, home, d, k, name, c, x, y);
    }
    TreeAlike(fs, fs', home);
  }

  lemma AddedEntry(fs: Fs, home: map<int, int>, d: int, k: int, name: Name, c: int, x: int, y: int)
    requires d in fs && Live(fs[d]) && FirstFree(fs[d].entries, k) && k >= 2 && c in fs && fs[c].kind != DIR && 0 !in fs
    ensures var fs' := WithEntry(fs, d, k, Dirent(c, name)); Stays(fs, fs', x, y) && Known(fs, fs', home, x, y)
  {
  }

  lemma AddedShapes(fs: Fs, d: int, k: int, name: Name, c: int)
    requires Shapes(fs) && d in fs && Live(fs[d]) && FirstFree(fs[d].entries, k) && Unused(fs, d, name) && c in fs
             && 0 !in fs
    ensures k >= 2 && name != Dot() && name != DotDot()
    ensures Shapes(WithEntry(fs, d, k, Dirent(c, name))) && Alike(fs, WithEntry(fs, d, k, Dirent(c, name)))
  {
    assert ShapeOk(d, fs[d]);
    DirOkAdded(d, fs[d].entries, k, Dirent(c, name));
    var fs' := WithEntry(fs, d, k, Dirent(c, name));
    hide DirOk;
    forall x | x in fs' ensures ShapeOk(x, fs'[x]) {
      assert ShapeOk(x, fs[x]);
    }
  }

  lemma TreeLinks(fs: Fs, home: map<int, int>, c: int, n: int)
    requires Tree(fs, home) && c in fs && n >= 0 && (fs[c].kind == DIR ==> (fs[c].nlink > 0 <==> n > 0))
    ensures Tree(WithLinks(fs, c, n), home)
  {
    var fs' := WithLinks(fs, c, n);
    LinksShapes(fs, c, n);
    hide Entries, Homes, Shapes, Alike, Stays, Known;
    forall x, y ensures Stays(fs, fs', x, y) && Known(fs, fs', home, x, y) {
      LinksEntry(fs, home, c, n, x, y);
    }
    TreeAlike(fs, fs', home);
  }

  lemma LinksEntry(fs: Fs, home: map<int, int>, c: int, n: int, x: int, y: int)
    requires c in fs && (fs[c].kind == DIR ==> (fs[c].nlink > 0 <==> n > 0))
    ensures var fs' := WithLinks(fs, c, n); Stays(fs, fs', x, y) && Known(fs, fs', home, x, y)
  {
  }

  lemma LinksShapes(fs: Fs, c: int, n: int)
    requires Shapes(fs) && c in fs && n >= 0 && (fs[c].kind == DIR ==> (fs[c].nlink > 0 <==> n > 0))
    ensures Shapes(WithLinks(fs, c, n)) && Alike(fs, WithLinks(fs, c, n))
  {
    var fs' := WithLinks(fs, c, n);
    hide DirOk;
    forall x | x in fs' ensures ShapeOk(x, fs'[x]) {
      assert ShapeOk(x, fs[x]);
    }
  }

  /** Removing the entry of a file. */
  lemma TreeDropped(fs: Fs, home: map<int, int>, d: int, k: int)
    requires Tree(fs, home) && d in fs && Live(fs[d]) && 2 <= k < |fs[d].entries| && fs[d].entries[k].inum != 0
    requires fs[d].entries[k].inum in fs && fs[fs[d].entries[k].inum].kind != DIR
    ensures Tree(WithEntry(fs, d, k, Free()), home)
  {
    hide Entries, Homes, Shapes, Alike, Stays, Known;
    var fs' := WithEntry(fs, d, k, Free());
    DroppedShapes(fs, d, k);
    forall x, y ensures Stays(fs, fs', x, y) && Known(fs, fs', home, x, y) {
      DroppedEntry(fs, home, d, k, x, y);
    }
    TreeAlike(fs, fs', home);
  }

  lemma DroppedEntry(fs: Fs, home: map<int, int>, d: int, k: int, x: int, y: int)
    requires d in fs && Live(fs[d]) && 2 <= k < |fs[d].entries| && fs[d].entries[k].inum in fs
             && fs[fs[d].entries[k].inum].kind != DIR
    ensures var fs' := WithEntry(fs, d, k, Free()); Stays(fs, fs', x, y) && Known(fs, fs', home, x, y)
  {
  }

  lemma DroppedShapes(fs: Fs, d: int, k: int)
    requires Shapes(fs) && d in fs && Live(fs[d]) && 2 <= k < |fs[d].entries|
    ensures Shapes(WithEntry(fs, d, k, Free())) && Alike(fs, WithEntry(fs, d, k, Free()))
  {
    assert ShapeOk(d, fs[d]);
    DirOkDropped(d, fs[d].entries, k);
    var fs' := WithEntry(fs, d, k, Free());
    hide DirOk;
    forall x | x in fs' ensures ShapeOk(x, fs'[x]) {
      assert ShapeOk(x, fs[x]);
    }
  }

  lemma OneMore(a: set<(int, int)>, p: (int, int))
    requires p !in a
    ensures |a + {p}| == |a| + 1
  {
  }

  lemma OneLess(a: set<(int, int)>, p: (int, int))
    requires p in a
    ensures |a - {p}| == |a| - 1 && |a| >= 1
  {
  }

  lemma LawAdded(fs: Fs, d: int, k: int, name: Name, c: int)
    requires Law(fs) && d in fs && Live(fs[d]) && FirstFree(fs[d].entries, k) && name != Dot() && c in fs && 0 !in fs
             && fs[c].kind != DIR
    ensures Law(WithEntry(WithLinks(fs, c, fs[c].nlink + 1), d, k, Dirent(c, name)))
  {
    hide Names, Live, Set;
    var fs1 := WithLinks(fs, c, fs[c].nlink + 1);
    var fs2 := WithEntry(fs1, d, k, Dirent(c, name));
    StillLive(fs, c, fs[c].nlink + 1, d);
    forall i | i in fs2 ensures |Names(fs2, i)| == fs2[i].nlink {
      NamesLinks(fs, c, fs[c].nlink + 1, i);
      NamesAdded(fs1, d, k, Dirent(c, name), i);
      if i == c {
        OneMore(Names(fs, i), (d, k));
      }
    }
  }

  lemma StillLive(fs: Fs, c: int, n: int, d: int)
    requires c in fs && d in fs && Live(fs[d]) && (fs[c].kind == DIR ==> n > 0)
    ensures Live(WithLinks(fs, c, n)[d])
  {
  }

  lemma LawDropped(fs: Fs, d: int, k: int)
    requires Law(fs) && d in fs && Live(fs[d]) && 2 <= k < |fs[d].entries| && fs[d].entries[k].inum != 0
             && fs[d].entries[k].name != Dot() && 0 !in fs
    requires fs[d].entries[k].inum in fs && fs[fs[d].entries[k].inum].kind != DIR
    ensures var c := fs[d].entries[k].inum;
            && fs[c].nlink >= 1 && Law(WithLinks(WithEntry(fs, d, k, Free()), c, fs[c].nlink - 1))
  {
    hide Names, Live, Set;
    var c := fs[d].entries[k].inum;
    var fs1 := WithEntry(fs, d, k, Free());
    NamesDropped(fs, d, k, c);
    OneLess(Names(fs, c), (d, k));
    var fs2 := WithLinks(fs1, c, fs[c].nlink - 1);
    forall i | i in fs2 ensures |Names(fs2, i)| == fs2[i].nlink {
      NamesDropped(fs, d, k, i);
      NamesLinks(fs1, c, fs[c].nlink - 1, i);
    }
  }

  // ----- making and removing directories

  /** The file system after mkdir of c in d at entry k. */
  function Made(fs: Fs, d: int, k: int, name: Name, c: int): Fs
    requires d in fs && d != c && 0 <= k <= |fs[d].entries|
  {
    WithEntry(WithLinks(fs[c := Inode(DIR, 1, [Dirent(c, Dot()), Dirent(d, DotDot())])], d, fs[d].nlink + 1), d, k,
      Dirent(c, name))
  }

  ghost predicate CanMake(fs: Fs, d: int, k: int, name: Name, c: int) {
    d in fs && Live(fs[d]) && FirstFree(fs[d].entries, k) && Unused(fs, d, name) && c !in fs && c != 0
  }

  lemma MadeShapes(fs: Fs, d: int, k: int, name: Name, c: int)
    requires Shapes(fs) && CanMake(fs, d, k, name, c)
    ensures k >= 2 && name != Dot() && Shapes(Made(fs, d, k, name, c))
  {
    assert ShapeOk(d, fs[d]);
    DirOkAdded(d, fs[d].entries, k, Dirent(c, name));
    var fs' := Made(fs, d, k, name, c);
    forall x | x in fs' ensures ShapeOk(x, fs'[x]) {
      if x != c && x != d {
        assert ShapeOk(x, fs[x]);
      }
    }
  }

  lemma MadeEntry(fs: Fs, home: map<int, int>, d: int, k: int, name: Name, c: int, x: int, y: int)
    requires CanMake(fs, d, k, name, c) && RootOk(fs) && Shapes(fs) && k >= 2 && Entries(fs, home)
    requires var fs' := Made(fs, d, k, name, c);
             && x in fs' && Live(fs'[x]) && 0 <= y < |fs'[x].entries| && fs'[x].entries[y].inum != 0
    ensures var fs' := Made(fs, d, k, name, c); EntryOk(fs', home[c := k], x, y, fs'[x].entries[y].inum)
  {
    hide Entries, Shapes;
    var fs' := Made(fs, d, k, name, c);
    if x != c && (x != d || y != k) {
      EntryThere(fs, home, x, y);
      DotsOf(fs, fs[x].entries[y].inum);
    }
  }

  lemma MadePlaced(fs: Fs, home: map<int, int>, d: int, k: int, name: Name, c: int, x: int)
    requires CanMake(fs, d, k, name, c) && RootOk(fs) && Shapes(fs) && k >= 2 && Homes(fs, home)
    requires var fs' := Made(fs, d, k, name, c); x in fs' && Live(fs'[x]) && x != ROOT
    ensures Placed(Made(fs, d, k, name, c), home[c := k], x)
  {
    hide Homes, Shapes;
    if x != c {
      HomeName(fs, home, x);
    }
  }

  lemma MadeTree(fs: Fs, home: map<int, int>, d: int, k: int, name: Name, c: int)
    requires Tree(fs, home) && CanMake(fs, d, k, name, c)
    ensures k >= 2 && name != Dot() && Tree(Made(fs, d, k, name, c), home[c := k])
  {
    hide Shapes, Unused, EntryOk, Placed;
    var fs' := Made(fs, d, k, name, c);
    MadeShapes(fs, d, k, name, c);
    MadeRoot(fs, d, k, name, c);
    forall x, y | x in fs' && Live(fs'[x]) && 0 <= y < |fs'[x].entries| && fs'[x].entries[y].inum != 0
      ensures EntryOk(fs', home[c := k], x, y, fs'[x].entries[y].inum)
    {
      MadeEntry(fs, home, d, k, name, c, x, y);
    }
    forall x | x in fs' && Live(fs'[x]) && x != ROOT ensures Placed(fs', home[c := k], x) {
      MadePlaced(fs, home, d, k, name, c, x);
    }
  }

  lemma MadeRoot(fs: Fs, d: int, k: int, name: Name, c: int)
    requires RootOk(fs) && CanMake(fs, d, k, name, c) && k >= 2
    ensures RootOk(Made(fs, d, k, name, c))
  {
  }

  lemma NoNames(fs: Fs, home: map<int, int>, c: int)
    requires Entries(fs, home) && c !in fs && c != 0
    ensures Names(fs, c) == {}
  {
    if p :| p in Names(fs, c) {
      NamedThere(fs, home, p.0, p.1, c);
      assert false;
    }
  }

  lemma NamedThere(fs: Fs, home: map<int, int>, x: int, y: int, c: int)
    requires Entries(fs, home) && NamedAt(fs, x, y, c) && c != 0
    ensures c in fs && EntryOk(fs, home, x, y, c)
  {
    assert EntryOk(fs, home, x, y, fs[x].entries[y].inum);
  }

  /** A live directory other than the root is named by its parent. */
  lemma HomeName(fs: Fs, home: map<int, int>, c: int)
    requires Shapes(fs) && Homes(fs, home) && c in fs && Live(fs[c]) && c != ROOT
    ensures Placed(fs, home, c) && NamedAt(fs, fs[c].entries[1].inum, home[c], c) && c != 0
  {
    assert Placed(fs, home, c);
    var u := fs[c].entries[1].inum;
    assert ShapeOk(u, fs[u]) && ShapeOk(c, fs[c]);
  }

  lemma MadeLaw(fs: Fs, home: map<int, int>, d: int, k: int, name: Name, c: int)
    requires Tree(fs, home) && Law(fs) && CanMake(fs, d, k, name, c) && name != Dot()
    ensures Law(Made(fs, d, k, name, c))
  {
    hide Names, Entries, Homes, Shapes, Unused, Set;
    var ip := Inode(DIR, 1, [Dirent(c, Dot()), Dirent(d, DotDot())]);
    var fs1 := fs[c := ip];
    var fs2 := WithLinks(fs1, d, fs[d].nlink + 1);
    var fs3 := Made(fs, d, k, name, c);
    NoNames(fs, home, c);
    forall i | i in fs3 ensures |Names(fs3, i)| == fs3[i].nlink {
      if i in fs {
        NonZero(fs, i);
      }
      NamesBorn(fs, c, ip, i);
      NamesLinks(fs1, d, fs[d].nlink + 1, i);
      NamesAdded(fs2, d, k, Dirent(c, name), i);
      if i == d {
        OneMore(Names(fs, i), (c, 1));
      } else if i == c {
        OneMore(Names(fs, i), (d, k));
      }
    }
  }

  /** The file system after entry k of d, naming the empty directory c, is removed. */
  function Removed(fs: Fs, d: int, k: int, c: int): Fs
    requires d in fs && c in fs && 0 <= k < |fs[d].entries|
  {
    var fs1 := WithEntry(fs, d, k, Free());
    var fs2 := WithLinks(fs1, d, fs1[d].nlink - 1);
    WithLinks(fs2, c, fs2[c].nlink - 1)
  }

  ghost predicate CanRemove(fs: Fs, home: map<int, int>, d: int, k: int, c: int) {
    && d in fs && Live(fs[d]) && 2 <= k < |fs[d].entries| && fs[d].entries[k].inum == c && c in fs && fs[c].kind == DIR
    && c != 0
    && (forall j :: 2 <= j < |fs[c].entries| ==> fs[c].entries[j].inum == 0)
  }

  /** An empty directory has one name, its parent at least two. */
  lemma OneName(fs: Fs, home: map<int, int>, d: int, k: int, c: int)
    requires Tree(fs, home) && Law(fs) && CanRemove(fs, home, d, k, c)
    ensures c != d && c != ROOT && Live(fs[c]) && DirOk(c, fs[c].entries) && fs[c].entries[1].inum == d
            && fs[d].entries[k].name != Dot()
    ensures Names(fs, c) == {(d, k)} && fs[c].nlink == 1 && fs[d].nlink >= 2
  {
    hide Entries, Homes, Shapes, Law;
    EntryThere(fs, home, d, k);
    DotsOf(fs, d);
    DotsOf(fs, c);
    forall p | p in Names(fs, c) ensures p == (d, k) {
      NameOfEmpty(fs, home, d, k, c, p.0, p.1);
    }
    InNames(fs, d, k, c);
    assert Names(fs, c) == {(d, k)};
    LawAt(fs, c);
    TwoNames(fs, home, d, c);
  }

  lemma NameOfEmpty(fs: Fs, home: map<int, int>, d: int, k: int, c: int, x: int, y: int)
    requires Tree(fs, home) && CanRemove(fs, home, d, k, c) && NamedAt(fs, x, y, c)
    ensures x == d && y == k
  {
    hide Shapes, Entries, Homes;
    NamedThere(fs, home, x, y, c);
    EntryThere(fs, home, d, k);
    DotsOf(fs, x);
    if y == 1 && x != ROOT {
      HomeName(fs, home, x);
      assert false;
    }
  }

  lemma EntryThere(fs: Fs, home: map<int, int>, d: int, k: int)
    requires Entries(fs, home) && d in fs && Live(fs[d]) && 0 <= k < |fs[d].entries| && fs[d].entries[k].inum != 0
    ensures EntryOk(fs, home, d, k, fs[d].entries[k].inum)
  {
  }

  lemma DotsOf(fs: Fs, x: int)
    requires Shapes(fs) && x in fs
    ensures ShapeOk(x, fs[x])
  {
  }

  lemma TwoNames(fs: Fs, home: map<int, int>, d: int, c: int)
    requires Tree(fs, home) && Law(fs) && d in fs && Live(fs[d]) && c in fs && Live(fs[c]) && DirOk(c, fs[c].entries)
             && fs[c].entries[1].inum == d && c != d
    ensures fs[d].nlink >= 2
  {
    hide Entries, Homes, Shapes, Law, Names;
    InNames(fs, c, 1, d);
    var p: (int, int);
    if d == ROOT {
      DotsOf(fs, d);
      p := (d, 1);
    } else {
      HomeName(fs, home, d);
      p := (fs[d].entries[1].inum, home[d]);
    }
    InNames(fs, p.0, p.1, d);
    OneLess(Names(fs, d), p);
    OneLess(Names(fs, d) - {p}, (c, 1));
    LawAt(fs, d);
  }

  lemma InNames(fs: Fs, x: int, y: int, i: int)
    requires NamedAt(fs, x, y, i)
    ensures (x, y) in Names(fs, i)
  {
  }

  lemma LawAt(fs: Fs, i: int)
    requires Law(fs) && i in fs
    ensures |Names(fs, i)| == fs[i].nlink
  {
  }

  lemma RemovedNames(fs: Fs, d: int, k: int, c: int, i: int)
    requires d in fs && Live(fs[d]) && 2 <= k < |fs[d].entries| && fs[d].entries[k].inum == c && c in fs && Live(fs[c])
             && c != 0 && c != d && i != 0
    requires DirOk(c, fs[c].entries) && fs[c].entries[1].inum == d && fs[d].entries[k].name != Dot() && fs[c].nlink == 1
             && fs[d].nlink >= 2
    requires forall j :: 2 <= j < |fs[c].entries| ==> fs[c].entries[j].inum == 0
    ensures i == c ==> (d, k) in Names(fs, i)
    ensures i == d ==> (c, 1) in Names(fs, i)
    ensures Names(Removed(fs, d, k, c), i) ==
              Names(fs, i) - (if i == c then {(d, k)} else {}) - (if i == d then {(c, 1)} else {})
  {
    hide Names, Set, DirOk;
    var fs1 := WithEntry(fs, d, k, Free());
    var fs2 := WithLinks(fs1, d, fs1[d].nlink - 1);
    assert fs2[c] == fs[c];
    NamesDropped(fs, d, k, i);
    NamesLinks(fs1, d, fs1[d].nlink - 1, i);
    NamesBuried(fs2, c, i);
  }

  lemma RemovedLaw(fs: Fs, home: map<int, int>, d: int, k: int, c: int)
    requires Tree(fs, home) && Law(fs) && CanRemove(fs, home, d, k, c)
    ensures Law(Removed(fs, d, k, c))
  {
    hide Names, Entries, Homes, Shapes, DirOk, Set;
    OneName(fs, home, d, k, c);
    var fs3 := Removed(fs, d, k, c);
    forall i | i in fs3 ensures |Names(fs3, i)| == fs3[i].nlink {
      NonZero(fs, i);
      RemovedNames(fs, d, k, c, i);
      if i == c {
        OneLess(Names(fs, i), (d, k));
      } else if i == d {
        OneLess(Names(fs, i), (c, 1));
      }
    }
  }

  lemma RemovedEntry(fs: Fs, home: map<int, int>, d: int, k: int, c: int, x: int, y: int)
    requires Tree(fs, home) && Law(fs) && CanRemove(fs, home, d, k, c)
    requires var fs' := Removed(fs, d, k, c);
             && x in fs' && Live(fs'[x]) && 0 <= y < |fs'[x].entries| && fs'[x].entries[y].inum != 0
    ensures var fs' := Removed(fs, d, k, c); EntryOk(fs', home, x, y, fs'[x].entries[y].inum)
  {
    hide Entries, Homes, Shapes, Names, Law;
    OneName(fs, home, d, k, c);
    DotsOf(fs, x);
    EntryThere(fs, home, x, y);
    var i := fs[x].entries[y].inum;
    if i == c && fs[x].entries[y].name != Dot() {
      NameOfEmpty(fs, home, d, k, c, x, y);
    }
  }

  lemma RemovedTree(fs: Fs, home: map<int, int>, d: int, k: int, c: int)
    requires Tree(fs, home) && Law(fs) && CanRemove(fs, home, d, k, c)
    ensures Tree(Removed(fs, d, k, c), home)
  {
    hide Names, Law, Shapes, EntryOk, Placed, RootOk, DirOk, Removed, CanRemove;
    OneName(fs, home, d, k, c);
    RemovedShapes(fs, home, d, k, c);
    RemovedRoot(fs, home, d, k, c);
    var fs' := Removed(fs, d, k, c);
    forall x, y | x in fs' && Live(fs'[x]) && 0 <= y < |fs'[x].entries| && fs'[x].entries[y].inum != 0
      ensures EntryOk(fs', home, x, y, fs'[x].entries[y].inum)
    {
      RemovedEntry(fs, home, d, k, c, x, y);
    }
    forall x | x in fs' && Live(fs'[x]) && x != ROOT ensures Placed(fs', home, x) {
      RemovedPlaced(fs, home, d, k, c, x);
    }
  }

  lemma RemovedRoot(fs: Fs, home: map<int, int>, d: int, k: int, c: int)
    requires RootOk(fs) && CanRemove(fs, home, d, k, c) && c != ROOT && c != d && fs[d].nlink >= 2
    ensures d in fs && c in fs && 0 <= k < |fs[d].entries| && RootOk(Removed(fs, d, k, c))
  {
  }

  lemma RemovedShapes(fs: Fs, home: map<int, int>, d: int, k: int, c: int)
    requires Tree(fs, home) && Law(fs) && CanRemove(fs, home, d, k, c)
    ensures Shapes(Removed(fs, d, k, c))
  {
    hide Names, Law, DirOk, Entries, Homes, Set;
    OneName(fs, home, d, k, c);
    DotsOf(fs, d);
    DirOkDropped(d, fs[d].entries, k);
    var fs' := Removed(fs, d, k, c);
    forall x | x in fs' ensures ShapeOk(x, fs'[x]) {
      DotsOf(fs, x);
    }
  }

  lemma RemovedPlaced(fs: Fs, home: map<int, int>, d: int, k: int, c: int, x: int)
    requires Tree(fs, home) && Law(fs) && CanRemove(fs, home, d, k, c)
    requires var fs' := Removed(fs, d, k, c); x in fs' && Live(fs'[x]) && x != ROOT
    ensures Placed(Removed(fs, d, k, c), home, x)
  {
    hide Entries, Homes, Shapes, Names, Law, DirOk;
    OneName(fs, home, d, k, c);
    HomeName(fs, home, x);
  }

  // ----- new files, and inodes that go away

  lemma BornTree(fs: Fs, home: map<int, int>, c: int, kind: Kind)
    requires Tree(fs, home) && c !in fs && c != 0 && kind != DIR
    ensures Tree(fs[c := Inode(kind, 1, [])], home)
  {
    var fs' := fs[c := Inode(kind, 1, [])];
    assert Shapes(fs') by {
      hide Entries, Homes;
      forall x | x in fs' ensures ShapeOk(x, fs'[x]) {
        if x != c {
          assert ShapeOk(x, fs[x]);
        }
      }
    }
    hide Shapes, Entries, Homes;
    BornEntries(fs, home, c, kind);
  }

  lemma BornEntries(fs: Fs, home: map<int, int>, c: int, kind: Kind)
    requires Entries(fs, home) && Homes(fs, home) && c !in fs && kind != DIR
    ensures var fs' := fs[c := Inode(kind, 1, [])]; Entries(fs', home) && Homes(fs', home)
  {
    var fs' := fs[c := Inode(kind, 1, [])];
    forall x, y | x in fs' && Live(fs'[x]) && 0 <= y < |fs'[x].entries| && fs'[x].entries[y].inum != 0
      ensures EntryOk(fs', home, x, y, fs'[x].entries[y].inum)
    {
      assert EntryOk(fs, home, x, y, fs[x].entries[y].inum);
    }
    forall x | x in fs' && Live(fs'[x]) && x != ROOT ensures Placed(fs', home, x) {
      assert Placed(fs, home, x);
    }
  }

  /** The file system after a file c is made in d at entry k. */
  function Born(fs: Fs, d: int, k: int, name: Name, c: int, kind: Kind): Fs
    requires d in fs && d != c && 0 <= k <= |fs[d].entries|
  {
    WithEntry(fs[c := Inode(kind, 1, [])], d, k, Dirent(c, name))
  }

  lemma BornLaw(fs: Fs, home: map<int, int>, d: int, k: int, name: Name, c: int, kind: Kind)
    requires d in fs && d != c && 0 <= k <= |fs[d].entries|
    requires Tree(fs, home) && Law(fs) && CanMake(fs, d, k, name, c) && name != Dot() && kind != DIR
    ensures Law(Born(fs, d, k, name, c, kind))
  {
    hide Names, Tree, CanMake, Born, Law;
    BornKeys(fs, d, k, name, c, kind);
    TreeNames(fs, home, c);
    var fs' := Born(fs, d, k, name, c, kind);
    forall i | i in fs' ensures |Names(fs', i)| == fs'[i].nlink {
      BornNames(fs, d, k, name, c, kind, i);
      OneMore(Names(fs, i), (d, k));
      if i != c {
        LawAt(fs, i);
      }
    }
    LawFrom(fs');
  }

  lemma LawFrom(fs: Fs)
    requires forall i :: i in fs ==> |Names(fs, i)| == fs[i].nlink
    ensures Law(fs)
  {
  }

  lemma BornKeys(fs: Fs, d: int, k: int, name: Name, c: int, kind: Kind)
    requires CanMake(fs, d, k, name, c)
    ensures d in fs && c !in fs && c != 0 && 0 <= k <= |fs[d].entries|
    ensures var fs' := Born(fs, d, k, name, c, kind);
            fs'.Keys == fs.Keys + {c} && fs'[c].nlink == 1 && forall i :: i in fs ==> fs'[i].nlink == fs[i].nlink
  {
  }

  lemma TreeNames(fs: Fs, home: map<int, int>, c: int)
    requires Tree(fs, home) && c !in fs && c != 0
    ensures Names(fs, c) == {} && 0 !in fs
  {
    NoNames(fs, home, c);
    if 0 in fs {
      NonZero(fs, 0);
    }
  }

  lemma BornNames(fs: Fs, d: int, k: int, name: Name, c: int, kind: Kind, i: int)
    requires CanMake(fs, d, k, name, c) && name != Dot() && kind != DIR && i != 0
    ensures (d, k) !in Names(fs, i)
    ensures Names(Born(fs, d, k, name, c, kind), i) == Names(fs, i) + if i == c then {(d, k)} else {}
  {
    hide Names, Unused, Set;
    NamesBorn(fs, c, Inode(kind, 1, []), i);
    NamesAdded(fs[c := Inode(kind, 1, [])], d, k, Dirent(c, name), i);
  }

  /** A file made in a directory that is not live has a link but no name. */
  lemma BornDead(fs: Fs, home: map<int, int>, d: int, k: int, name: Name, c: int, kind: Kind)
    requires Entries(fs, home) && d in fs && !Live(fs[d]) && 0 <= k <= |fs[d].entries| && c !in fs && c != 0
             && kind != DIR
    ensures !Law(Born(fs, d, k, name, c, kind))
  {
    var fs1 := fs[c := Inode(kind, 1, [])];
    NoNames(fs, home, c);
    NamesBorn(fs, c, Inode(kind, 1, []), c);
    NamesHidden(fs1, d, k, Dirent(c, name), c);
    hide Names;
    var fs2 := WithEntry(fs1, d, k, Dirent(c, name));
    assert |Names(fs2, c)| == 0 && fs2[c].nlink == 1;
  }

  /** A directory made in one that is not live brings that one back without a place in the tree. */
  lemma MadeDead(fs: Fs, home: map<int, int>, d: int, k: int, name: Name, c: int, h: map<int, int>)
    requires Tree(fs, home) && Law(fs) && d in fs && fs[d].kind == DIR && !Live(fs[d]) && 2 <= k <= |fs[d].entries|
             && c !in fs && c != 0
    ensures !Tree(Made(fs, d, k, name, c), h)
  {
    hide Entries, Homes, Shapes, Law, Names;
    var fs' := Made(fs, d, k, name, c);
    DotsOf(fs, d);
    LawAt(fs, d);
    assert d != ROOT && Live(fs'[d]);
    var u := fs'[d].entries[1].inum;
    if Tree(fs', h) {
      HomeName(fs', h, d);
      DeadPlace(fs, d, k, name, c, u, h[d]);
      assert false;
    }
  }

  lemma DeadPlace(fs: Fs, d: int, k: int, name: Name, c: int, u: int, y: int)
    requires d in fs && fs[d].kind == DIR && !Live(fs[d]) && DirOk(d, fs[d].entries) && 2 <= k <= |fs[d].entries|
             && c !in fs && c != 0 && Names(fs, d) == {}
    requires y >= 2 && u != d
    ensures !NamedAt(Made(fs, d, k, name, c), u, y, d)
  {
    if NamedAt(Made(fs, d, k, name, c), u, y, d) {
      InNames(fs, u, y, d);
      assert false;
    }
  }

  /** Linking a file into a directory that is not live gives it a link without a name. */
  lemma LinkedDead(fs: Fs, d: int, k: int, name: Name, c: int)
    requires Law(fs) && d in fs && !Live(fs[d]) && 0 <= k <= |fs[d].entries| && c in fs && fs[c].kind != DIR
    ensures !Law(WithEntry(WithLinks(fs, c, fs[c].nlink + 1), d, k, Dirent(c, name)))
  {
    hide Names;
    var fs1 := WithLinks(fs, c, fs[c].nlink + 1);
    var fs2 := WithEntry(fs1, d, k, Dirent(c, name));
    LawAt(fs, c);
    NamesLinks(fs, c, fs[c].nlink + 1, c);
    NamesHidden(fs1, d, k, Dirent(c, name), c);
    assert fs2[c].nlink == fs[c].nlink + 1;
  }

  /** An inode without links is freed. */
  lemma FreedGood(fs: Fs, home: map<int, int>, c: int)
    requires Good(fs, home) && c in fs && fs[c].nlink == 0
    ensures Good(fs - {c}, home)
  {
    var fs' := fs - {c};
    assert forall i :: i in fs' ==> fs'[i] == fs[i];
    forall i | i in fs' ensures |Names(fs', i)| == fs'[i].nlink {
      NamesGone(fs, c, i);
    }
    LawAt(fs, c);
    assert Names(fs, c) == {};
    FreedTree(fs, home, c);
  }

  lemma FreedTree(fs: Fs, home: map<int, int>, c: int)
    requires Tree(fs, home) && c in fs && !Live(fs[c]) && Names(fs, c) == {}
    ensures Tree(fs - {c}, home)
  {
    var fs' := fs - {c};
    assert Shapes(fs');
    hide Names;
    forall x, y | x in fs' && Live(fs'[x]) && 0 <= y < |fs'[x].entries| && fs'[x].entries[y].inum != 0
      ensures EntryOk(fs', home, x, y, fs'[x].entries[y].inum)
    {
      EntryThere(fs, home, x, y);
      DotsOf(fs, x);
      if fs[x].entries[y].inum == c {
        InNames(fs, x, y, c);
        assert false;
      }
    }
    forall x | x in fs' && Live(fs'[x]) && x != ROOT ensures Placed(fs', home, x) {
      HomeName(fs, home, x);
    }
  }

  // ----- a directory's link count is small

  lemma {:induction false} PairCard(W: set<(int, int)>, f: map<(int, int), int>, n: int)
    requires 0 <= n && W <= f.Keys && forall p :: p in W ==> 0 <= f[p] < n
    requires forall p, q :: p in W && q in W && f[p] == f[q] ==> p == q
    ensures |W| <= n
    decreases n
  {
    if n > 0 {
      var V := W;
      if q :| q in W && f[q] == n - 1 {
        V := W - {q};
        OneLess(W, q);
      }
      PairCard(V, f, n - 1);
    } else {
      NoPairs(W, f);
    }
  }

  lemma NoPairs(W: set<(int, int)>, f: map<(int, int), int>)
    requires W <= f.Keys && forall p :: p in W ==> 0 <= f[p] < 0
    ensures |W| == 0
  {
    if p :| p in W {
      assert false;
    }
    assert W == {};
  }

  /** Where a name of directory d counts among d's own entries: a child's ".." at the child's entry, the name in
      the parent at 1. */
  function Spot(fs: Fs, home: map<int, int>, p: (int, int)): int {
    if p.1 == 1 && p.0 != ROOT && p.0 in home then home[p.0] else 1
  }

  lemma NameSpot(fs: Fs, home: map<int, int>, d: int, p: (int, int))
    requires Tree(fs, home) && d in fs && Live(fs[d]) && p in Names(fs, d)
    ensures 1 <= Spot(fs, home, p) < |fs[d].entries|
    ensures Spot(fs, home, p) >= 2 ==> p == (fs[d].entries[Spot(fs, home, p)].inum, 1)
    ensures Spot(fs, home, p) == 1 ==>
              (if d == ROOT then p == (ROOT, 1) else d in home && p == (fs[d].entries[1].inum, home[d]))
  {
    hide Entries, Homes, Shapes;
    DotsOf(fs, d);
    NamedThere(fs, home, p.0, p.1, d);
    DotsOf(fs, p.0);
    if p.1 == 1 && p.0 != ROOT {
      HomeName(fs, home, p.0);
    }
  }

  /** A live directory has fewer links than entries, so its link count cannot overflow. */
  lemma DirLinksBound(fs: Fs, home: map<int, int>, d: int)
    requires Good(fs, home) && d in fs && Live(fs[d])
    ensures fs[d].nlink < |fs[d].entries|
  {
    hide Tree, Names, Law;
    LawAt(fs, d);
    var W := Names(fs, d);
    var f := map p | p in W :: Spot(fs, home, p) - 1;
    forall p | p in W ensures 0 <= f[p] < |fs[d].entries| - 1 {
      NameSpot(fs, home, d, p);
    }
    forall p, q | p in W && q in W && f[p] == f[q] ensures p == q {
      NameSpot(fs, home, d, p);
      NameSpot(fs, home, d, q);
    }
    SomeEntries(fs, home, d);
    PairCard(W, f, |fs[d].entries| - 1);
  }

  lemma SomeEntries(fs: Fs, home: map<int, int>, d: int)
    requires Tree(fs, home) && d in fs && Live(fs[d])
    ensures |fs[d].entries| >= 2
  {
    hide Entries, Homes;
    DotsOf(fs, d);
  }
}
