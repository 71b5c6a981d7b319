/**
 * What sys_link, sys_unlink and create (kernel/sysfile.c) do to lookups: when each succeeds, which names then lead
 * where, and that no other name, kind or link count changes.
 */
module DirEffects {
  import opened PathNames
  import opened Links
  import opened Directories
  import opened PathLookup

  // ----- how the names listed in directories change

  /** Lists is what Find finds. */
  lemma ListsFind(fs: Fs, d: int, name: Name, j: int)
    ensures Lists(fs, d, name, j) <==>
              && d in fs && fs[d].kind == DIR && Find(fs[d].entries, name, 0) != -1
              && fs[d].entries[Find(fs[d].entries, name, 0)].inum == j
  {
    hide Lists, Nameless;
    if d in fs && fs[d].kind == DIR {
      FindLists(fs, d, name);
      var k := Find(fs[d].entries, name, 0);
      if Lists(fs, d, name, j) {
        ListsOne(fs, d, name, j, j);
        ListsOne(fs, d, name, j, fs[d].entries[k].inum);
      }
    } else {
      NoDirLists(fs, d, name, j);
    }
  }

  lemma NoDirLists(fs: Fs, d: int, name: Name, j: int)
    requires !(d in fs && fs[d].kind == DIR)
    ensures !Lists(fs, d, name, j)
  {
  }

  /** Directories with the same entries list the same. */
  lemma ListsSame(fs: Fs, fs': Fs, d: int, name: Name, j: int)
    requires d in fs <==> d in fs'
    requires d in fs ==> fs'[d].kind == fs[d].kind && fs'[d].entries == fs[d].entries
    ensures Lists(fs', d, name, j) <==> Lists(fs, d, name, j)
  {
  }

  lemma FindAdded(es: seq<Dirent>, k: int, e: Dirent, name: Name)
    requires 0 <= k <= |es| && (k < |es| ==> es[k].inum == 0) && e.inum != 0 && Find(es, e.name, 0) == -1
    ensures Find(Set(es, k, e), name, 0) == if name == e.name then k else Find(es, name, 0)
  {
    var es', f, f' := Set(es, k, e), Find(es, name, 0), Find(Set(es, k, e), name, 0);
    assert es'[k] == e;
    assert forall m :: 0 <= m < |es| && m != k ==> es'[m] == es[m];
    if name != e.name && f != -1 {
      assert es'[f] == es[f];
    }
    if f' != -1 {
      assert es'[f'].inum != 0 && es'[f'].name == name;
    }
  }

  /** No other entry in use has the name of entry k. */
  ghost predicate OnlyAt(es: seq<Dirent>, k: int)
    requires 0 <= k < |es|
  {
    forall m :: 0 <= m < |es| && es[m].inum != 0 && es[m].name == es[k].name ==> m == k
  }

  lemma FindDropped(es: seq<Dirent>, k: int, name: Name)
    requires 0 <= k < |es| && es[k].inum != 0 && OnlyAt(es, k)
    ensures Find(Set(es, k, Free()), name, 0) == if name == es[k].name then -1 else Find(es, name, 0)
  {
    hide Free;
    var es', f, f' := Set(es, k, Free()), Find(es, name, 0), Find(Set(es, k, Free()), name, 0);
    assert es'[k].inum == 0 && forall m :: 0 <= m < |es| && m != k ==> es'[m] == es[m];
    if name != es[k].name && f != -1 {
      assert es'[f] == es[f];
    }
    if f' != -1 {
      assert es'[f'].inum != 0 && es'[f'].name == name;
    }
  }

  lemma SetAt(es: seq<Dirent>, k: int, e: Dirent)
    requires 0 <= k <= |es|
    ensures Set(es, k, e)[k] == e && forall m :: 0 <= m < |es| && m != k ==> Set(es, k, e)[m] == es[m]
  {
  }

  /** One name more: in directory d, for inode i. */
  ghost predicate Adds(fs: Fs, fs': Fs, d: int, name: Name, i: int) {
    forall x, n, j :: Lists(fs', x, n, j) <==> Lists(fs, x, n, j) || (x == d && n == name && j == i)
  }

  /** One name less. */
  ghost predicate Drops(fs: Fs, fs': Fs, d: int, name: Name) {
    forall x, n, j :: Lists(fs', x, n, j) <==> Lists(fs, x, n, j) && !(x == d && n == name)
  }

  lemma EntryAdds(fs: Fs, d: int, k: int, name: Name, i: int)
    requires d in fs && fs[d].kind == DIR && FirstFree(fs[d].entries, k) && i != 0
    requires Find(fs[d].entries, name, 0) == -1
    ensures Adds(fs, WithEntry(fs, d, k, Dirent(i, name)), d, name, i)
  {
    hide Lists;
    var fs', e := WithEntry(fs, d, k, Dirent(i, name)), Dirent(i, name);
    forall x, n, j ensures Lists(fs', x, n, j) <==> Lists(fs, x, n, j) || (x == d && n == name && j == i) {
      if x == d {
        FindAdded(fs[d].entries, k, e, n);
        ListsFind(fs, d, n, j);
        ListsFind(fs', d, n, j);
        SetAt(fs[d].entries, k, e);
      } else {
        ListsSame(fs, fs', x, n, j);
      }
    }
  }

  lemma EntryDrops(fs: Fs, d: int, k: int)
    requires d in fs && fs[d].kind == DIR && 0 <= k < |fs[d].entries| && fs[d].entries[k].inum != 0
    requires OnlyAt(fs[d].entries, k)
    ensures Drops(fs, WithEntry(fs, d, k, Free()), d, fs[d].entries[k].name)
  {
    hide Lists, Free;
    var fs', name := WithEntry(fs, d, k, Free()), fs[d].entries[k].name;
    forall x, n, j ensures Lists(fs', x, n, j) <==> Lists(fs, x, n, j) && !(x == d && n == name) {
      if x == d {
        FindDropped(fs[d].entries, k, n);
        ListsFind(fs, d, n, j);
        ListsFind(fs', d, n, j);
        SetAt(fs[d].entries, k, Free());
      } else {
        ListsSame(fs, fs', x, n, j);
      }
    }
  }

  // ----- what that does to chains

  ghost predicate Grows(fs: Fs, fs': Fs) {
    forall x, n, j :: Lists(fs, x, n, j) ==> Lists(fs', x, n, j)
  }

  lemma LeadsGrows(fs: Fs, fs': Fs, i: int, es: seq<Name>, j: int)
    requires Grows(fs, fs') && Leads(fs, i, es, j)
    ensures Leads(fs', i, es, j)
  {
    hide Lists;
    var c :| Chain(fs, c, es) && c[0] == i && c[|es|] == j;
    forall m | 0 <= m < |es| ensures Lists(fs', c[m], es[m], c[m + 1]) {
      assert Lists(fs, c[m], es[m], c[m + 1]);
    }
    assert Chain(fs', c, es);
  }

  lemma LeadsOneMore(fs: Fs, i: int, es: seq<Name>, d: int, j: int)
    requires es != [] && Leads(fs, i, es[..|es| - 1], d) && Lists(fs, d, es[|es| - 1], j)
    ensures Leads(fs, i, es, j)
  {
    hide Lists;
    var up := es[..|es| - 1];
    var c :| Chain(fs, c, up) && c[0] == i && c[|up|] == d;
    var c' := c + [j];
    forall m | 0 <= m < |es| ensures Lists(fs, c'[m], es[m], c'[m + 1]) {
      if m < |up| {
        assert Lists(fs, c[m], up[m], c[m + 1]);
      }
    }
    assert Chain(fs, c', es) && c'[0] == i && c'[|es|] == j;
  }

  /** Every chain to the place of a name that is gone now breaks off there, at its end or before. */
  lemma {:induction false} GoneMissing(fs: Fs, fs': Fs, i: int, es: seq<Name>, d: int)
    requires es != [] && Drops(fs, fs', d, es[|es| - 1]) && Leads(fs, i, es[..|es| - 1], d)
    requires d in fs' && fs'[d].kind == DIR
    ensures Missing(fs', i, es)
    decreases |es|
  {
    hide Lists, Leads, Nameless, Drops;
    DropsNameless(fs, fs', d, es[|es| - 1]);
    LeadsNone(fs', i, i);
    assert es[..0] == [];
    if i == d && es[0] == es[|es| - 1] {
      assert Stops(fs', i, es, 0, i);
    } else if |es| == 1 {
      LeadsNone(fs, i, d);
      assert false;
    } else {
      var up := es[..|es| - 1];
      var j := FirstOf(fs, i, up, d);
      assert es[1..][..|es[1..]| - 1] == up[1..];
      GoneMissing(fs, fs', j, es[1..], d);
      StillLists(fs, fs', d, es[|es| - 1], i, es[0], j);
      DoesMore(fs', i, es, j);
    }
  }

  lemma FirstOf(fs: Fs, i: int, es: seq<Name>, d: int) returns (j: int)
    requires es != [] && Leads(fs, i, es, d)
    ensures Lists(fs, i, es[0], j) && Leads(fs, j, es[1..], d)
  {
    hide Lists;
    var c :| Chain(fs, c, es) && c[0] == i && c[|es|] == d;
    LeadsRest(fs, c, es);
    j := c[1];
  }

  lemma StillLists(fs: Fs, fs': Fs, d: int, name: Name, x: int, n: Name, j: int)
    requires Drops(fs, fs', d, name) && Lists(fs, x, n, j) && !(x == d && n == name)
    ensures Lists(fs', x, n, j)
  {
  }

  lemma DropsNameless(fs: Fs, fs': Fs, d: int, name: Name)
    requires Drops(fs, fs', d, name) && d in fs' && fs'[d].kind == DIR
    ensures Nameless(fs', d, name)
  {
    hide Lists, Nameless;
    FindLists(fs', d, name);
  }

  // ----- sys_link

  /** All names of a path but the last. */
  function Up(es: seq<Name>): seq<Name>
    requires es != []
  {
    es[..|es| - 1]
  }

  function End(es: seq<Name>): Name
    requires es != []
  {
    es[|es| - 1]
  }

  /** The names es from b lead to a place in directory d that no entry has yet and that has room. */
  ghost predicate Vacant(fs: Fs, b: int, es: seq<Name>, d: int) {
    && es != [] && Leads(fs, b, Up(es), d) && d in fs && fs[d].kind == DIR
    && Nameless(fs, d, End(es)) && !Crammed(fs[d].entries)
  }

  /** There is no such place: no directory, or the name is taken. */
  ghost predicate NoPlaceIn(fs: Fs, b: int, es: seq<Name>) {
    || es == [] || Missing(fs, b, Up(es))
    || (exists d :: Leads(fs, b, Up(es), d) && d in fs && (fs[d].kind != DIR || !Nameless(fs, d, End(es))))
  }

  /** The names es from a lead to i, which is no directory. */
  ghost predicate LeadsToFile(fs: Fs, a: int, es: seq<Name>, i: int) {
    Leads(fs, a, es, i) && i in fs && fs[i].kind != DIR
  }

  /** Kinds stay, and so do link counts outside W. */
  ghost predicate Keeps(fs: Fs, fs': Fs, W: set<int>) {
    && fs.Keys <= fs'.Keys
    && forall x :: x in fs ==> fs'[x].kind == fs[x].kind && (x !in W ==> fs'[x].nlink == fs[x].nlink)
  }

  lemma LinkIs(fs: Fs, i: int, d: int, k: int, name: Name)
    requires i in fs && i != 0 && d in fs && fs[d].kind == DIR && FirstFree(fs[d].entries, k)
    requires Find(fs[d].entries, name, 0) == -1
    ensures var fs' := Linked(fs, i, d, k, name);
            && Adds(fs, fs', d, name, i) && Keeps(fs, fs', {i}) && fs'.Keys == fs.Keys
            && fs'[i].nlink == Short(fs[i].nlink + 1)
  {
    hide Lists, Short;
    var fs1 := WithLinks(fs, i, Short(fs[i].nlink + 1));
    EntryAdds(fs1, d, k, name, i);
    forall x, n, j ensures Lists(fs1, x, n, j) <==> Lists(fs, x, n, j) {
      ListsSame(fs, fs1, x, n, j);
    }
  }

  /** What nameiparent finds, and a lookup of the last name there. */
  lemma VacantIff(fs: Fs, cwd: int, path: seq<int>, b: int, d: int)
    requires From(path, cwd, b)
    ensures Vacant(fs, b, Elems(path, 0), d) <==>
              && Nameiparent(fs, cwd, path) == At(d) && Find(fs[d].entries, Last(path), 0) == -1
              && !Crammed(fs[d].entries)
  {
    hide Leads, Nameless, Elems, Nameiparent, Missing, From, Crammed;
    NameiparentIff(fs, cwd, path, b, d);
    if Elems(path, 0) != [] && d in fs && fs[d].kind == DIR {
      FindLists(fs, d, Last(path));
    }
  }

  /** nameiparent for every directory at once. */
  lemma ParentFinds(fs: Fs, cwd: int, path: seq<int>, b: int)
    requires From(path, cwd, b) && Elems(path, 0) != []
    ensures forall d :: Leads(fs, b, Up(Elems(path, 0)), d) && d in fs && fs[d].kind == DIR <==>
              Nameiparent(fs, cwd, path) == At(d)
    ensures forall d :: d in fs && fs[d].kind == DIR ==>
              (Find(fs[d].entries, Last(path), 0) == -1 <==> Nameless(fs, d, Last(path)))
  {
    hide Leads, Nameless, Elems, Nameiparent, Missing, From;
    forall d ensures Leads(fs, b, Up(Elems(path, 0)), d) && d in fs && fs[d].kind == DIR <==>
      Nameiparent(fs, cwd, path) == At(d)
    {
      NameiparentIff(fs, cwd, path, b, d);
    }
    forall d | d in fs && fs[d].kind == DIR
      ensures Find(fs[d].entries, Last(path), 0) == -1 <==> Nameless(fs, d, Last(path))
    {
      FindLists(fs, d, Last(path));
    }
  }

  lemma NoPlaceIff(fs: Fs, cwd: int, path: seq<int>, b: int)
    requires From(path, cwd, b)
    ensures var p := Nameiparent(fs, cwd, path);
            NoPlaceIn(fs, b, Elems(path, 0)) <==>
              p.Absent? || (p.At? && Find(fs[p.i].entries, Last(path), 0) != -1)
  {
    hide Leads, Nameless, Elems, Nameiparent, Missing, From;
    var es := Elems(path, 0);
    NameiparentIff(fs, cwd, path, b, ROOT);
    if es != [] {
      ParentFinds(fs, cwd, path, b);
    }
  }

  lemma FileIff(fs: Fs, cwd: int, path: seq<int>, a: int, i: int)
    requires From(path, cwd, a)
    ensures LeadsToFile(fs, a, Elems(path, 0), i) <==> Namei(fs, cwd, path) == At(i) && i in fs && fs[i].kind != DIR
  {
    hide Leads, Elems, Namei, From;
    NameiIff(fs, cwd, path, a, i);
  }

  /** A place that is filled is found by its path. */
  lemma AddedFound(fs: Fs, fs': Fs, cwd: int, path: seq<int>, b: int, d: int, i: int)
    requires From(path, cwd, b) && Vacant(fs, b, Elems(path, 0), d) && Adds(fs, fs', d, Last(path), i)
    ensures Namei(fs', cwd, path) == At(i)
  {
    hide Lists, Leads, Elems, Namei, From, Nameless, Crammed;
    var es := Elems(path, 0);
    LeadsGrows(fs, fs', b, Up(es), d);
    assert Lists(fs', d, Last(path), i);
    LeadsOneMore(fs', b, es, d, i);
    NameiIff(fs', cwd, path, b, i);
  }

  /** When sys_link succeeds and when it refuses. */
  lemma LinkOutcome(fs: Fs, cwd: int, from: seq<int>, to: seq<int>, r: Outcome, k: int, fs': Fs)
    requires LinkSpec(fs, cwd, from, to, r, k, fs')
    ensures var p, q := Namei(fs, cwd, from), Nameiparent(fs, cwd, to);
            var file := p.At? && p.i in fs && fs[p.i].kind != DIR;
            && (r == Ok <==> file && q.At? && Find(fs[q.i].entries, Last(to), 0) == -1 && !Crammed(fs[q.i].entries))
            && (r == Fail <==>
                  || p.Absent? || (p.At? && p.i in fs && fs[p.i].kind == DIR)
                  || (file && (q.Absent? || (q.At? && Find(fs[q.i].entries, Last(to), 0) != -1))))
            && (r == Fail ==> fs' == fs)
            && (r == Ok ==> FirstFree(fs[q.i].entries, k) && fs' == Linked(fs, p.i, q.i, k, Last(to)))
  {
    hide Namei, Nameiparent, Find, Crammed, Last, Linked, FirstFree;
  }

  /** sys_link makes a link exactly when the old path leads to a file that is no directory and the new one to a place
      that is free in a directory with room; it refuses, changing nothing, exactly when a path leads nowhere, the old
      one leads to a directory or the new name is taken.  The link it makes is one name more, for that file. */
  lemma LinkIff(fs: Fs, cwd: int, from: seq<int>, to: seq<int>, r: Outcome, k: int, fs': Fs, a: int, b: int)
    requires LinkSpec(fs, cwd, from, to, r, k, fs') && From(from, cwd, a) && From(to, cwd, b) && 0 !in fs
    ensures var es, es' := Elems(from, 0), Elems(to, 0);
            && (r == Ok <==> exists i, d :: LeadsToFile(fs, a, es, i) && Vacant(fs, b, es', d))
            && (r == Fail <==>
                  || Missing(fs, a, es) || (exists i :: Leads(fs, a, es, i) && i in fs && fs[i].kind == DIR)
                  || (exists i :: LeadsToFile(fs, a, es, i) && NoPlaceIn(fs, b, es')))
            && (r == Fail ==> fs' == fs)
    ensures forall i, d :: LeadsToFile(fs, a, Elems(from, 0), i) && Vacant(fs, b, Elems(to, 0), d) ==>
              && Adds(fs, fs', d, Last(to), i) && Keeps(fs, fs', {i}) && fs'.Keys == fs.Keys
              && fs'[i].nlink == Short(fs[i].nlink + 1)
              && Namei(fs', cwd, to) == At(i)
  {
    hide *;
    var es, es' := Elems(from, 0), Elems(to, 0);
    LinkOutcome(fs, cwd, from, to, r, k, fs');
    forall i ensures LeadsToFile(fs, a, es, i) <==> Namei(fs, cwd, from) == At(i) && i in fs && fs[i].kind != DIR {
      FileIff(fs, cwd, from, a, i);
    }
    forall i ensures Leads(fs, a, es, i) <==> Namei(fs, cwd, from) == At(i) {
      NameiIff(fs, cwd, from, a, i);
    }
    NameiIff(fs, cwd, from, a, ROOT);
    forall d ensures Vacant(fs, b, es', d) <==>
      Nameiparent(fs, cwd, to) == At(d) && Find(fs[d].entries, Last(to), 0) == -1 && !Crammed(fs[d].entries)
    {
      VacantIff(fs, cwd, to, b, d);
    }
    NoPlaceIff(fs, cwd, to, b);
    forall i, d | LeadsToFile(fs, a, es, i) && Vacant(fs, b, es', d)
      ensures && Adds(fs, fs', d, Last(to), i) && Keeps(fs, fs', {i}) && fs'.Keys == fs.Keys
              && fs'[i].nlink == Short(fs[i].nlink + 1) && Namei(fs', cwd, to) == At(i)
    {
      LinkIs(fs, i, d, k, Last(to));
      AddedFound(fs, fs', cwd, to, b, d, i);
    }
  }

  /** A lookup that found something before a name was added finds the same after. */
  lemma AddsKeepsLookups(fs: Fs, fs': Fs, d: int, name: Name, i: int, cwd: int, path: seq<int>, j: int)
    requires Adds(fs, fs', d, name, i) && Namei(fs, cwd, path) == At(j)
    ensures Namei(fs', cwd, path) == At(j)
  {
    hide Lists, Leads, Elems, Namei;
    var a := if path != [] && path[0] == SLASH then ROOT else cwd;
    NameiIff(fs, cwd, path, a, j);
    LeadsGrows(fs, fs', a, Elems(path, 0), j);
    NameiIff(fs', cwd, path, a, j);
  }

  // ----- sys_unlink

  predicate IsDots(n: Name) { n == Dot() || n == DotDot() }

  /** Directory i lists nothing but "." and "..". */
  ghost predicate OnlyDots(fs: Fs, i: int) {
    forall n, j :: Lists(fs, i, n, j) ==> IsDots(n)
  }

  /** An entry in use past the first two is the only one of its name, which is neither "." nor "..". */
  lemma PastDots(fs: Fs, d: int, k: int)
    requires Shapes(fs) && d in fs && fs[d].kind == DIR && 0 <= k < |fs[d].entries| && fs[d].entries[k].inum != 0
    ensures IsDots(fs[d].entries[k].name) <==> k < 2
    ensures OnlyAt(fs[d].entries, k)
  {
    hide Dot, DotDot;
    DotsOf(fs, d);
  }

  lemma EmptyIff(fs: Fs, i: int)
    requires Shapes(fs) && i in fs && fs[i].kind == DIR
    ensures IsEmpty(fs[i].entries) <==> OnlyDots(fs, i)
  {
    hide Lists, IsDots, OnlyAt, Shapes;
    var es := fs[i].entries;
    if IsEmpty(es) {
      forall n, j | Lists(fs, i, n, j) ensures IsDots(n) {
        ListsFind(fs, i, n, j);
        PastDots(fs, i, Find(es, n, 0));
      }
    } else {
      var k :| 2 <= k < |es| && es[k].inum != 0;
      PastDots(fs, i, k);
      FindOnly(es, k);
      ListsFind(fs, i, es[k].name, es[k].inum);
    }
  }

  lemma FindOnly(es: seq<Dirent>, k: int)
    requires 0 <= k < |es| && es[k].inum != 0 && OnlyAt(es, k)
    ensures Find(es, es[k].name, 0) == k
  {
  }

  /** The names es from b lead to an entry of directory d, which is for i. */
  ghost predicate LeadsToEntry(fs: Fs, b: int, es: seq<Name>, d: int, i: int) {
    es != [] && Leads(fs, b, Up(es), d) && Lists(fs, d, End(es), i)
  }

  /** ... and sys_unlink may remove it. */
  ghost predicate Removable(fs: Fs, b: int, es: seq<Name>, d: int, i: int) {
    && LeadsToEntry(fs, b, es, d, i) && !IsDots(End(es)) && i in fs && (fs[i].kind == DIR ==> OnlyDots(fs, i))
  }

  /** The names es from b lead to no entry of a directory. */
  ghost predicate NoEntryIn(fs: Fs, b: int, es: seq<Name>) {
    || es == [] || Missing(fs, b, Up(es))
    || (exists d :: Leads(fs, b, Up(es), d) && d in fs && (fs[d].kind != DIR || Nameless(fs, d, End(es))))
  }

  lemma EntryIff(fs: Fs, cwd: int, path: seq<int>, b: int, d: int, i: int)
    requires From(path, cwd, b)
    ensures LeadsToEntry(fs, b, Elems(path, 0), d, i) <==>
              && Nameiparent(fs, cwd, path) == At(d) && Find(fs[d].entries, Last(path), 0) != -1
              && fs[d].entries[Find(fs[d].entries, Last(path), 0)].inum == i
  {
    hide Leads, Lists, Elems, Nameiparent, Missing, From, Nameless;
    NameiparentIff(fs, cwd, path, b, d);
    if Elems(path, 0) != [] {
      ListsFind(fs, d, Last(path), i);
    }
  }

  lemma NoEntryIff(fs: Fs, cwd: int, path: seq<int>, b: int)
    requires From(path, cwd, b)
    ensures var p := Nameiparent(fs, cwd, path);
            NoEntryIn(fs, b, Elems(path, 0)) <==>
              p.Absent? || (p.At? && Find(fs[p.i].entries, Last(path), 0) == -1)
  {
    hide Leads, Nameless, Elems, Nameiparent, Missing, From;
    var es := Elems(path, 0);
    NameiparentIff(fs, cwd, path, b, ROOT);
    if es != [] {
      ParentFinds(fs, cwd, path, b);
    }
  }

  lemma UnlinkIs(fs: Fs, home: map<int, int>, d: int, k: int)
    requires Good(fs, home) && Stored(fs) && d in fs && fs[d].kind == DIR && 0 <= k < |fs[d].entries|
    requires fs[d].entries[k].inum != 0 && !IsDots(fs[d].entries[k].name) && fs[d].entries[k].inum in fs
    ensures var i, fs' := fs[d].entries[k].inum, Unlinked(fs, d, k);
            && Drops(fs, fs', d, fs[d].entries[k].name) && Keeps(fs, fs', {d, i}) && fs'.Keys == fs.Keys
            && fs'[i].nlink == fs[i].nlink - 1
            && fs'[d].nlink == fs[d].nlink - (if fs[i].kind == DIR then 1 else 0)
  {
    hide Lists, Dot, DotDot, Good, OnlyAt, Free, Stored, Unlinked, WithEntry, Keeps;
    Found(fs, home, d, k);
    GoodShapes(fs, home);
    PastDots(fs, d, k);
    EntryDrops(fs, d, k);
    ShortLinks(fs, fs[d].entries[k].inum);
    ShortLinks(fs, d);
    UnlinkCounts(fs, d, k);
    var fs1, fs' := WithEntry(fs, d, k, Free()), Unlinked(fs, d, k);
    forall x, n, j ensures Lists(fs', x, n, j) <==> Lists(fs1, x, n, j) {
      ListsSame(fs1, fs', x, n, j);
    }
  }

  lemma GoodShapes(fs: Fs, home: map<int, int>)
    requires Good(fs, home)
    ensures Shapes(fs)
  {
  }

  lemma UnlinkCounts(fs: Fs, d: int, k: int)
    requires d in fs && Live(fs[d]) && 0 <= k < |fs[d].entries| && fs[d].entries[k].inum in fs
    requires var i := fs[d].entries[k].inum;
             IsShort(fs[i].nlink) && IsShort(fs[d].nlink) && fs[i].nlink >= 1 && (fs[i].kind == DIR ==> i != d)
    ensures var i, fs1, fs' := fs[d].entries[k].inum, WithEntry(fs, d, k, Free()), Unlinked(fs, d, k);
            && Keeps(fs, fs', {d, i}) && fs'.Keys == fs.Keys == fs1.Keys
            && (forall x :: x in fs1 ==> fs'[x].kind == fs1[x].kind && fs'[x].entries == fs1[x].entries)
            && fs'[i].nlink == fs[i].nlink - 1
            && fs'[d].nlink == fs[d].nlink - (if fs[i].kind == DIR then 1 else 0)
  {
    hide Free;
  }

  /** When sys_unlink succeeds and when it refuses. */
  lemma UnlinkOutcome(fs: Fs, home: map<int, int>, cwd: int, path: seq<int>, r: Outcome, k: int, fs': Fs)
    requires UnlinkSpec(fs, cwd, path, r, k, fs') && Good(fs, home)
    ensures var p := Nameiparent(fs, cwd, path);
            if !p.At? then r == (if p.Absent? then Fail else Panic) && (r == Fail ==> fs' == fs)
            else if IsDots(Last(path)) || Find(fs[p.i].entries, Last(path), 0) == -1 then r == Fail && fs' == fs
            else
              && k == Find(fs[p.i].entries, Last(path), 0) && fs[p.i].entries[k].inum in fs
              && var i := fs[p.i].entries[k].inum;
                 if fs[i].kind == DIR && !OnlyDots(fs, i) then r == Fail && fs' == fs
                 else r == Ok && fs' == Unlinked(fs, p.i, k)
  {
    hide Nameiparent, Dot, DotDot, Unlinked, IsEmpty, OnlyDots, Law, Entries, Homes, Shapes, Last;
    var p := Nameiparent(fs, cwd, path);
    if p.At? && !IsDots(Last(path)) {
      var f := Find(fs[p.i].entries, Last(path), 0);
      if f != -1 {
        Found(fs, home, p.i, f);
        var i := fs[p.i].entries[f].inum;
        if fs[i].kind == DIR {
          EmptyIff(fs, i);
        }
      }
    }
  }

  /** In a file system that obeys the law, sys_unlink removes the name exactly when the path leads to an entry, other
      than "." and "..", of a file or of a directory that lists nothing but those two.  It refuses, changing nothing,
      exactly when there is no such entry, the name is "." or "..", or the directory lists something.  Removing is one
      name less, one link less for what it named, and one less for the directory when it named a directory. */
  lemma UnlinkIff(fs: Fs, home: map<int, int>, cwd: int, path: seq<int>, r: Outcome, k: int, fs': Fs, b: int)
    requires UnlinkSpec(fs, cwd, path, r, k, fs') && From(path, cwd, b) && Good(fs, home) && Stored(fs)
    ensures var es := Elems(path, 0);
            && (r == Ok <==> exists d, i :: Removable(fs, b, es, d, i))
            && (r == Fail <==>
                  || NoEntryIn(fs, b, es)
                  || (exists d, i :: LeadsToEntry(fs, b, es, d, i) && !Removable(fs, b, es, d, i)))
            && (r == Fail ==> fs' == fs)
    ensures forall d, i :: Removable(fs, b, Elems(path, 0), d, i) ==>
              && Drops(fs, fs', d, Last(path)) && Keeps(fs, fs', {d, i}) && fs'.Keys == fs.Keys
              && fs'[i].nlink == fs[i].nlink - 1
              && fs'[d].nlink == fs[d].nlink - (if fs[i].kind == DIR then 1 else 0)
              && Namei(fs', cwd, path) == Absent
  {
    hide *;
    var es := Elems(path, 0);
    UnlinkOutcome(fs, home, cwd, path, r, k, fs');
    forall d, i ensures LeadsToEntry(fs, b, es, d, i) <==>
      && Nameiparent(fs, cwd, path) == At(d) && Find(fs[d].entries, Last(path), 0) != -1
      && fs[d].entries[Find(fs[d].entries, Last(path), 0)].inum == i
    {
      EntryIff(fs, cwd, path, b, d, i);
    }
    forall d, i ensures Removable(fs, b, es, d, i) <==>
      && LeadsToEntry(fs, b, es, d, i) && !IsDots(Last(path)) && i in fs && (fs[i].kind == DIR ==> OnlyDots(fs, i))
    {
      RemovableIs(fs, b, path, d, i);
    }
    NoEntryIff(fs, cwd, path, b);
    var p := Nameiparent(fs, cwd, path);
    if p.At? && Find(fs[p.i].entries, Last(path), 0) != -1 {
      var i := fs[p.i].entries[Find(fs[p.i].entries, Last(path), 0)].inum;
      assert LeadsToEntry(fs, b, es, p.i, i);
      assert r == Ok ==> Removable(fs, b, es, p.i, i);
    }
    forall d, i | Removable(fs, b, es, d, i)
      ensures && Drops(fs, fs', d, Last(path)) && Keeps(fs, fs', {d, i}) && fs'.Keys == fs.Keys
              && fs'[i].nlink == fs[i].nlink - 1
              && fs'[d].nlink == fs[d].nlink - (if fs[i].kind == DIR then 1 else 0)
              && Namei(fs', cwd, path) == Absent
    {
      UnlinkIs(fs, home, d, k);
      KeepsDir(fs, fs', {d, i}, d);
      DroppedAbsent(fs, fs', cwd, path, b, d, i);
    }
  }

  lemma RemovableIs(fs: Fs, b: int, path: seq<int>, d: int, i: int)
    ensures Removable(fs, b, Elems(path, 0), d, i) <==>
              && LeadsToEntry(fs, b, Elems(path, 0), d, i) && !IsDots(Last(path)) && i in fs
              && (fs[i].kind == DIR ==> OnlyDots(fs, i))
  {
    hide Elems, IsDots, OnlyDots, Leads, Lists;
  }

  lemma KeepsDir(fs: Fs, fs': Fs, W: set<int>, d: int)
    requires Keeps(fs, fs', W) && d in fs
    ensures d in fs' && fs'[d].kind == fs[d].kind
  {
  }

  lemma DroppedAbsent(fs: Fs, fs': Fs, cwd: int, path: seq<int>, b: int, d: int, i: int)
    requires From(path, cwd, b) && LeadsToEntry(fs, b, Elems(path, 0), d, i) && Drops(fs, fs', d, Last(path))
    requires d in fs' && fs'[d].kind == DIR
    ensures Namei(fs', cwd, path) == Absent
  {
    hide Elems, Leads, Lists, Drops, Missing, Namei;
    GoneMissing(fs, fs', b, Elems(path, 0), d);
    NameiIff(fs', cwd, path, b, ROOT);
  }

  /** A lookup that finds something after a name is gone found the same before. */
  lemma DropsAddsNothing(fs: Fs, fs': Fs, d: int, name: Name, cwd: int, path: seq<int>, j: int)
    requires Drops(fs, fs', d, name) && Namei(fs', cwd, path) == At(j)
    ensures Namei(fs, cwd, path) == At(j)
  {
    hide Lists, Leads, Elems, Namei;
    var a := if path != [] && path[0] == SLASH then ROOT else cwd;
    NameiIff(fs', cwd, path, a, j);
    LeadsGrows(fs', fs, a, Elems(path, 0), j);
    NameiIff(fs, cwd, path, a, j);
  }

  // ----- create

  /** What the first two entries of a new directory c in d list. */
  predicate IsDotsOf(c: int, d: int, x: int, n: Name, j: int) {
    x == c && ((n == Dot() && j == c) || (n == DotDot() && j == d))
  }

  function Firsts(c: int, d: int, kind: Kind): seq<Dirent> {
    if kind == DIR then [Dirent(c, Dot()), Dirent(d, DotDot())] else []
  }

  lemma FirstsList(fs: Fs, c: int, d: int, kind: Kind, x: int, n: Name, j: int)
    requires c !in fs && c != 0 && d != 0
    ensures Lists(fs[c := Inode(kind, 1, Firsts(c, d, kind))], x, n, j) <==>
              Lists(fs, x, n, j) || (kind == DIR && IsDotsOf(c, d, x, n, j))
  {
    hide Lists, Dot, DotDot;
    var fs' := fs[c := Inode(kind, 1, Firsts(c, d, kind))];
    if x == c {
      ListsFind(fs, x, n, j);
      ListsFind(fs', x, n, j);
    } else {
      ListsSame(fs, fs', x, n, j);
    }
  }

  /** One name more, and the two of a new directory. */
  ghost predicate AddsNew(fs: Fs, fs': Fs, d: int, name: Name, c: int, kind: Kind) {
    forall x, n, j :: Lists(fs', x, n, j) <==>
      || Lists(fs, x, n, j) || (x == d && n == name && j == c)
      || (kind == DIR && IsDotsOf(c, d, x, n, j))
  }

  lemma NewIs(fs: Fs, d: int, k: int, name: Name, c: int, kind: Kind)
    requires c !in fs && c != 0 && d != 0 && d in fs && fs[d].kind == DIR && FirstFree(fs[d].entries, k)
    requires Find(fs[d].entries, name, 0) == -1
    ensures var fs' := New(fs, d, k, name, c, kind);
            && AddsNew(fs, fs', d, name, c, kind) && Keeps(fs, fs', {d}) && fs'.Keys == fs.Keys + {c}
            && fs'[c].kind == kind && fs'[c].nlink == 1
            && fs'[d].nlink == if kind == DIR then Short(fs[d].nlink + 1) else fs[d].nlink
  {
    hide Lists, Dot, DotDot, Short, IsDotsOf, Find;
    var n0 := if kind == DIR then Short(fs[d].nlink + 1) else fs[d].nlink;
    var fs1 := fs[c := Inode(kind, 1, Firsts(c, d, kind))];
    var fs2 := WithLinks(fs1, d, n0);
    assert New(fs, d, k, name, c, kind) == WithEntry(fs2, d, k, Dirent(c, name));
    EntryAdds(fs2, d, k, name, c);
    forall x, n, j
      ensures Lists(fs2, x, n, j) <==> Lists(fs, x, n, j) || (kind == DIR && IsDotsOf(c, d, x, n, j))
    {
      FirstsList(fs, c, d, kind, x, n, j);
      ListsSame(fs1, fs2, x, n, j);
    }
  }

  /** When create succeeds and when it refuses. */
  lemma CreateOutcome(fs: Fs, cwd: int, path: seq<int>, kind: Kind, c: int, r: Outcome, num: int, k: int, fs': Fs)
    requires c !in fs && CreateSpec(fs, cwd, path, kind, c, r, num, k, fs')
    ensures var p := Nameiparent(fs, cwd, path);
            if !p.At? then r == (if p.Absent? then Fail else Panic) && (r == Fail ==> fs' == fs)
            else
              var f := Find(fs[p.i].entries, Last(path), 0);
              if f != -1 then
                var i := fs[p.i].entries[f].inum;
                if i !in fs then r == Panic
                else if kind == FILE && fs[i].kind != DIR then r == Ok && num == i && fs' == fs
                else r == Fail && fs' == fs
              else if Crammed(fs[p.i].entries) then r == Panic
              else
                && r == Ok && num == c && FirstFree(fs[p.i].entries, k)
                && fs' == New(fs, p.i, k, Last(path), c, kind)
  {
    hide Nameiparent, New, Last, Crammed, FirstFree;
  }

  lemma NewFound(fs: Fs, fs': Fs, cwd: int, path: seq<int>, b: int, d: int, c: int, kind: Kind)
    requires From(path, cwd, b) && Vacant(fs, b, Elems(path, 0), d) && AddsNew(fs, fs', d, Last(path), c, kind)
    ensures Namei(fs', cwd, path) == At(c)
  {
    hide Lists, Leads, Elems, Namei, From, Nameless, Crammed, IsDotsOf;
    var es := Elems(path, 0);
    LeadsGrows(fs, fs', b, Up(es), d);
    assert Lists(fs', d, Last(path), c);
    LeadsOneMore(fs', b, es, d, c);
    NameiIff(fs', cwd, path, b, c);
  }

  /** create makes an inode exactly when the path leads to a place that is free in a directory with room, and gives an
      existing one, changing nothing, exactly when a file is asked for and the path leads to something that is no
      directory.  It refuses, changing nothing, when there is no directory for the name, or the name is that of
      something else.  What it makes has the kind asked for, one link, and the one name; a directory also has its
      "." and "..", for which the parent gets one more link. */
  lemma CreateIff(fs: Fs, cwd: int, path: seq<int>, kind: Kind, c: int, r: Outcome, num: int, k: int, fs': Fs, b: int)
    requires 0 !in fs && c !in fs && c != 0
    requires CreateSpec(fs, cwd, path, kind, c, r, num, k, fs') && From(path, cwd, b)
    ensures var es := Elems(path, 0);
            && (r == Ok <==>
                  || (exists d :: Vacant(fs, b, es, d))
                  || (kind == FILE && exists d, i :: LeadsToEntry(fs, b, es, d, i) && i in fs && fs[i].kind != DIR))
            && (r == Fail <==>
                  || (NoEntryIn(fs, b, es) && NoPlaceIn(fs, b, es))
                  || (exists d, i ::
                        LeadsToEntry(fs, b, es, d, i) && i in fs && !(kind == FILE && fs[i].kind != DIR)))
            && (r == Fail ==> fs' == fs)
    ensures forall d, i :: LeadsToEntry(fs, b, Elems(path, 0), d, i) && r == Ok ==> num == i && fs' == fs
    ensures forall d :: Vacant(fs, b, Elems(path, 0), d) ==>
              && num == c && AddsNew(fs, fs', d, Last(path), c, kind) && Keeps(fs, fs', {d})
              && fs'.Keys == fs.Keys + {c} && fs'[c].kind == kind && fs'[c].nlink == 1
              && fs'[d].nlink == (if kind == DIR then Short(fs[d].nlink + 1) else fs[d].nlink)
              && Namei(fs', cwd, path) == At(c)
  {
    hide *;
    var es := Elems(path, 0);
    CreateOutcome(fs, cwd, path, kind, c, r, num, k, fs');
    forall d, i ensures LeadsToEntry(fs, b, es, d, i) <==>
      && Nameiparent(fs, cwd, path) == At(d) && Find(fs[d].entries, Last(path), 0) != -1
      && fs[d].entries[Find(fs[d].entries, Last(path), 0)].inum == i
    {
      EntryIff(fs, cwd, path, b, d, i);
    }
    forall d ensures Vacant(fs, b, es, d) <==>
      Nameiparent(fs, cwd, path) == At(d) && Find(fs[d].entries, Last(path), 0) == -1 && !Crammed(fs[d].entries)
    {
      VacantIff(fs, cwd, path, b, d);
    }
    NoPlaceIff(fs, cwd, path, b);
    NoEntryIff(fs, cwd, path, b);
    var p := Nameiparent(fs, cwd, path);
    if p.At? && Find(fs[p.i].entries, Last(path), 0) != -1 {
      assert LeadsToEntry(fs, b, es, p.i, fs[p.i].entries[Find(fs[p.i].entries, Last(path), 0)].inum);
    }
    forall d | Vacant(fs, b, es, d)
      ensures && num == c && AddsNew(fs, fs', d, Last(path), c, kind) && Keeps(fs, fs', {d})
              && fs'.Keys == fs.Keys + {c} && fs'[c].kind == kind && fs'[c].nlink == 1
              && fs'[d].nlink == (if kind == DIR then Short(fs[d].nlink + 1) else fs[d].nlink)
              && Namei(fs', cwd, path) == At(c)
    {
      NewIs(fs, d, k, Last(path), c, kind);
      NewFound(fs, fs', cwd, path, b, d, c, kind);
    }
  }
}
