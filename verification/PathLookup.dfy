/**
 * What namei and nameiparent (kernel/fs.c) find, said without the loop that finds it: the elements of a path are what
 * stands between its slashes, and a lookup is a chain of directories each naming the next.
 */
module PathLookup {
  import opened PathNames
  import opened Links
  import opened Directories

  // ----- the elements of a path

  function Slashes(n: nat): seq<int> { seq(n, k => SLASH) }

  /** A path written as elements with runs of slashes around them. */
  datatype Part = Part(slashes: nat, elem: seq<int>)

  function Join(ps: seq<Part>, trailing: nat): seq<int> {
    if ps == [] then Slashes(trailing) else Slashes(ps[0].slashes) + ps[0].elem + Join(ps[1..], trailing)
  }

  predicate IsElem(e: seq<int>) { e != [] && SLASH !in e }

  /** Elements that are not empty and hold no slash, and at least one slash between any two. */
  predicate Parts(ps: seq<Part>) {
    (forall k :: 0 <= k < |ps| ==> IsElem(ps[k].elem)) && forall k :: 1 <= k < |ps| ==> ps[k].slashes > 0
  }

  /** The names that the elements are stored under. */
  function Fields(ps: seq<Part>): (fs: seq<Name>)
    ensures |fs| == |ps| && forall k :: 0 <= k < |ps| ==> fs[k] == Field(ps[k].elem)
  {
    if ps == [] then [] else [Field(ps[0].elem)] + Fields(ps[1..])
  }

  lemma JoinStarts(ps: seq<Part>, trailing: nat)
    requires Parts(ps) && (ps != [] ==> ps[0].slashes > 0)
    ensures Join(ps, trailing) == [] || Join(ps, trailing)[0] == SLASH
  {
  }

  /** Slashes from pos to p, and an element from there to e. */
  lemma ElemsStep(path: seq<int>, pos: int, p: int, e: int)
    requires 0 <= pos <= p < e <= |path| && forall k :: pos <= k < p ==> path[k] == SLASH
    requires (forall k :: p <= k < e ==> path[k] != SLASH) && (e < |path| ==> path[e] == SLASH)
    ensures Elems(path, pos) == [Field(path[p..e])] + Elems(path, e)
  {
    hide Field;
    assert path[p] != SLASH;
    assert AfterSlashes(path, pos) <= p;
    assert AfterSlashes(path, pos) >= p;
    assert ElemEnd(path, p) == e;
  }

  lemma ElemsNone(path: seq<int>, pos: int)
    requires 0 <= pos <= |path| && forall k :: pos <= k < |path| ==> path[k] == SLASH
    ensures Elems(path, pos) == []
  {
  }

  /** a, s, e and b one after another. */
  lemma Pieces(a: seq<int>, s: seq<int>, e: seq<int>, b: seq<int>, path: seq<int>)
    requires path == a + (s + e + b)
    ensures path == (a + s + e) + b && path[|a| + |s|..|a| + |s| + |e|] == e
    ensures forall k :: |a| <= k < |a| + |s| ==> path[k] == s[k - |a|]
    ensures forall k :: |a| + |s| <= k < |a| + |s| + |e| ==> path[k] == e[k - |a| - |s|]
    ensures b != [] ==> path[|a| + |s| + |e|] == b[0]
  {
  }

  lemma {:induction false} ElemsAfter(a: seq<int>, ps: seq<Part>, trailing: nat)
    requires Parts(ps)
    ensures Elems(a + Join(ps, trailing), |a|) == Fields(ps)
    decreases |ps|
  {
    hide Field, Elems;
    var path := a + Join(ps, trailing);
    if ps == [] {
      ElemsNone(path, |a|);
    } else {
      var s, e, rest := Slashes(ps[0].slashes), ps[0].elem, Join(ps[1..], trailing);
      JoinStarts(ps[1..], trailing);
      Pieces(a, s, e, rest, path);
      ElemsStep(path, |a|, |a| + |s|, |a| + |s| + |e|);
      ElemsAfter(a + s + e, ps[1..], trailing);
    }
  }

  /** The elements of a path are, in order, the names of what stands between its slashes. */
  lemma ElemsOf(ps: seq<Part>, trailing: nat)
    requires Parts(ps)
    ensures Elems(Join(ps, trailing), 0) == Fields(ps)
  {
    hide Elems, Join;
    ElemsAfter([], ps, trailing);
    assert [] + Join(ps, trailing) == Join(ps, trailing);
  }

  // ----- chains

  /** The first entry in use under this name in directory d is of inode j. */
  ghost predicate Lists(fs: Fs, d: int, name: Name, j: int) {
    && d in fs && fs[d].kind == DIR
    && exists k :: 0 <= k < |fs[d].entries| && FirstNamed(fs[d].entries, name, k) && fs[d].entries[k].inum == j
  }

  predicate FirstNamed(es: seq<Dirent>, name: Name, k: int)
    requires 0 <= k < |es|
  {
    es[k].inum != 0 && es[k].name == name && forall m :: 0 <= m < k && es[m].inum != 0 ==> es[m].name != name
  }

  /** Nothing is stored under this name in d. */
  ghost predicate Nameless(fs: Fs, d: int, name: Name) {
    d in fs && fs[d].kind == DIR && forall k :: 0 <= k < |fs[d].entries| && fs[d].entries[k].inum != 0 ==>
      fs[d].entries[k].name != name
  }

  /** Each inode of the chain is a directory that names the next one. */
  ghost predicate Chain(fs: Fs, c: seq<int>, es: seq<Name>) {
    |c| == |es| + 1 && forall m :: 0 <= m < |es| ==> Lists(fs, c[m], es[m], c[m + 1])
  }

  /** A chain from i under the names es ends at j. */
  ghost predicate Leads(fs: Fs, i: int, es: seq<Name>, j: int) {
    exists c :: Chain(fs, c, es) && c[0] == i && c[|es|] == j
  }

  lemma FindLists(fs: Fs, d: int, name: Name)
    requires d in fs && fs[d].kind == DIR
    ensures Find(fs[d].entries, name, 0) == -1 <==> Nameless(fs, d, name)
    ensures Find(fs[d].entries, name, 0) != -1 ==> Lists(fs, d, name, fs[d].entries[Find(fs[d].entries, name, 0)].inum)
  {
    var k := Find(fs[d].entries, name, 0);
    if k != -1 {
      assert FirstNamed(fs[d].entries, name, k);
    }
  }

  /** A name is listed for one inode at most, and then the name is there. */
  lemma ListsOne(fs: Fs, d: int, name: Name, j: int, j': int)
    requires Lists(fs, d, name, j) && Lists(fs, d, name, j')
    ensures j == j' && !Nameless(fs, d, name)
  {
  }

  lemma {:induction false} LeadsOne(fs: Fs, i: int, es: seq<Name>, j: int, j': int)
    requires Leads(fs, i, es, j) && Leads(fs, i, es, j')
    ensures j == j'
    decreases |es|
  {
    hide Lists;
    if es != [] {
      var c :| Chain(fs, c, es) && c[0] == i && c[|es|] == j;
      var c' :| Chain(fs, c', es) && c'[0] == i && c'[|es|] == j';
      assert Lists(fs, c[0], es[0], c[0 + 1]) && Lists(fs, c'[0], es[0], c'[0 + 1]);
      ListsOne(fs, i, es[0], c[1], c'[1]);
      LeadsRest(fs, c, es);
      LeadsRest(fs, c', es);
      LeadsOne(fs, c[1], es[1..], j, j');
    }
  }

  lemma LeadsRest(fs: Fs, c: seq<int>, es: seq<Name>)
    requires Chain(fs, c, es) && es != []
    ensures Leads(fs, c[1], es[1..], c[|es|]) && Lists(fs, c[0], es[0], c[1])
  {
    hide Lists;
    var c1, es1 := c[1..], es[1..];
    forall m | 0 <= m < |es1| ensures Lists(fs, c1[m], es1[m], c1[m + 1]) {
      assert Lists(fs, c[m + 1], es[m + 1], c[m + 1 + 1]);
    }
    assert Lists(fs, c[0], es[0], c[0 + 1]);
    assert Chain(fs, c1, es1) && c1[0] == c[1] && c1[|es1|] == c[|es|];
  }

  lemma LeadsMore(fs: Fs, i: int, name: Name, j: int, es: seq<Name>, k: int)
    requires Lists(fs, i, name, j) && Leads(fs, j, es, k)
    ensures Leads(fs, i, [name] + es, k)
  {
    hide Lists;
    var c :| Chain(fs, c, es) && c[0] == j && c[|es|] == k;
    var c1, es1 := [i] + c, [name] + es;
    forall m | 0 <= m < |es1| ensures Lists(fs, c1[m], es1[m], c1[m + 1]) {
      if m > 0 {
        assert Lists(fs, c[m - 1], es[m - 1], c[m - 1 + 1]);
      }
    }
    assert Chain(fs, c1, es1) && c1[0] == i && c1[|es1|] == k;
  }

  lemma LeadsNone(fs: Fs, i: int, j: int)
    ensures Leads(fs, i, [], j) <==> i == j
  {
    if i == j {
      assert Chain(fs, [i], []) && [i][0] == i;
    }
  }

  /** The chain reaches d, where the next name is missing, or which is no directory. */
  ghost predicate Missing(fs: Fs, i: int, es: seq<Name>) {
    exists m, d :: 0 <= m < |es| && Stops(fs, i, es, m, d)
  }

  ghost predicate Stops(fs: Fs, i: int, es: seq<Name>, m: int, d: int)
    requires 0 <= m < |es|
  {
    Leads(fs, i, es[..m], d) && d in fs && (fs[d].kind != DIR || Nameless(fs, d, es[m]))
  }

  /** The chain reaches an inode that is not there. */
  ghost predicate Gone(fs: Fs, i: int, es: seq<Name>) {
    exists m, d :: 0 <= m < |es| && Falls(fs, i, es, m, d)
  }

  ghost predicate Falls(fs: Fs, i: int, es: seq<Name>, m: int, d: int)
    requires 0 <= m < |es|
  {
    Leads(fs, i, es[..m], d) && d !in fs
  }

  /** A lookup does one of three things. */
  lemma {:induction false} ResolveDoes(fs: Fs, i: int, es: seq<Name>)
    ensures match Resolve(fs, i, es, false)
            case At(j) => Leads(fs, i, es, j)
            case Absent => Missing(fs, i, es)
            case Panicked => Gone(fs, i, es)
    decreases |es|
  {
    hide Leads, Lists, Nameless;
    if es == [] {
      LeadsNone(fs, i, i);
    } else if i !in fs || fs[i].kind != DIR {
      LeadsNone(fs, i, i);
      assert es[..0] == [];
      assert i !in fs ==> Falls(fs, i, es, 0, i);
      assert i in fs ==> Stops(fs, i, es, 0, i);
    } else {
      FindLists(fs, i, es[0]);
      var k := Find(fs[i].entries, es[0], 0);
      if k == -1 {
        LeadsNone(fs, i, i);
        assert es[..0] == [];
        assert Stops(fs, i, es, 0, i);
      } else {
        var j := fs[i].entries[k].inum;
        ResolveDoes(fs, j, es[1..]);
        assert [es[0]] + es[1..] == es;
        DoesMore(fs, i, es, j);
      }
    }
  }

  lemma DoesMore(fs: Fs, i: int, es: seq<Name>, j: int)
    requires es != [] && Lists(fs, i, es[0], j)
    ensures forall k :: Leads(fs, j, es[1..], k) ==> Leads(fs, i, es, k)
    ensures Missing(fs, j, es[1..]) ==> Missing(fs, i, es)
    ensures Gone(fs, j, es[1..]) ==> Gone(fs, i, es)
  {
    hide Leads, Lists, Nameless;
    var rest := es[1..];
    assert [es[0]] + rest == es;
    forall k | Leads(fs, j, rest, k) ensures Leads(fs, i, es, k) {
      LeadsMore(fs, i, es[0], j, rest, k);
    }
    if Missing(fs, j, rest) {
      var m, d :| 0 <= m < |rest| && Stops(fs, j, rest, m, d);
      LeadsMore(fs, i, es[0], j, rest[..m], d);
      assert [es[0]] + rest[..m] == es[..m + 1];
      assert Stops(fs, i, es, m + 1, d);
    }
    if Gone(fs, j, rest) {
      var m, d :| 0 <= m < |rest| && Falls(fs, j, rest, m, d);
      LeadsMore(fs, i, es[0], j, rest[..m], d);
      assert [es[0]] + rest[..m] == es[..m + 1];
      assert Falls(fs, i, es, m + 1, d);
    }
  }

  lemma LeadsThrough(fs: Fs, i: int, es: seq<Name>, j: int, m: int) returns (d: int, n: int)
    requires Leads(fs, i, es, j) && 0 <= m < |es|
    ensures Leads(fs, i, es[..m], d) && Lists(fs, d, es[m], n)
  {
    hide Lists;
    var c :| Chain(fs, c, es) && c[0] == i && c[|es|] == j;
    d, n := c[m], c[m + 1];
    var c1, es1 := c[..m + 1], es[..m];
    forall k | 0 <= k < |es1| ensures Lists(fs, c1[k], es1[k], c1[k + 1]) {
      assert Lists(fs, c[k], es[k], c[k + 1]);
    }
    assert Chain(fs, c1, es1) && c1[0] == i && c1[|es1|] == d;
  }

  /** A chain that goes on past m does not stop or fall there. */
  lemma GoesPast(fs: Fs, i: int, es: seq<Name>, j: int, m: int, d: int)
    requires Leads(fs, i, es, j) && 0 <= m < |es| && Leads(fs, i, es[..m], d)
    ensures d in fs && fs[d].kind == DIR && !Nameless(fs, d, es[m])
  {
    hide Leads;
    var e, n := LeadsThrough(fs, i, es, j, m);
    LeadsOne(fs, i, es[..m], d, e);
    ListsOne(fs, d, es[m], n, n);
  }

  /** The three exclude each other. */
  lemma DoesOne(fs: Fs, i: int, es: seq<Name>, j: int)
    ensures Leads(fs, i, es, j) ==> !Missing(fs, i, es) && !Gone(fs, i, es)
    ensures !(Missing(fs, i, es) && Gone(fs, i, es))
  {
    hide Leads, Nameless;
    if Leads(fs, i, es, j) {
      forall m, d | 0 <= m < |es| && Leads(fs, i, es[..m], d)
        ensures d in fs && fs[d].kind == DIR && !Nameless(fs, d, es[m])
      {
        GoesPast(fs, i, es, j, m, d);
      }
    }
    if Gone(fs, i, es) {
      var m, d :| 0 <= m < |es| && Falls(fs, i, es, m, d);
      forall n, e | 0 <= n < |es| && Leads(fs, i, es[..n], e)
        ensures !Stops(fs, i, es, n, e)
      {
        NotBoth(fs, i, es, m, d, n, e);
      }
    }
  }

  lemma NotBoth(fs: Fs, i: int, es: seq<Name>, m: int, d: int, n: int, e: int)
    requires 0 <= m < |es| && Falls(fs, i, es, m, d) && 0 <= n < |es| && Leads(fs, i, es[..n], e)
    ensures !Stops(fs, i, es, n, e)
  {
    hide Leads, Nameless;
    if m == n {
      LeadsOne(fs, i, es[..m], d, e);
    } else if m < n {
      assert es[..n][..m] == es[..m];
      GoesPast(fs, i, es[..n], e, m, d);
    } else {
      assert es[..m][..n] == es[..n];
      GoesPast(fs, i, es[..m], d, n, e);
    }
  }

  lemma ResolveIff(fs: Fs, i: int, es: seq<Name>, j: int)
    ensures Resolve(fs, i, es, false) == At(j) <==> Leads(fs, i, es, j)
    ensures Resolve(fs, i, es, false) == Absent <==> Missing(fs, i, es)
    ensures Resolve(fs, i, es, false) == Panicked <==> Gone(fs, i, es)
  {
    hide Leads, Missing, Gone, Resolve;
    ResolveDoes(fs, i, es);
    DoesOne(fs, i, es, j);
    var r := Resolve(fs, i, es, false);
    if r.At? {
      DoesOne(fs, i, es, r.i);
      if Leads(fs, i, es, j) {
        LeadsOne(fs, i, es, j, r.i);
      }
    }
  }

  /** Where a path starts: at the root if its first byte is a slash, else in the working directory. */
  predicate From(path: seq<int>, cwd: int, i: int) {
    (|path| > 0 && path[0] == SLASH && i == ROOT) || (!(|path| > 0 && path[0] == SLASH) && i == cwd)
  }

  /** namei finds inode j if and only if a chain of directories leads to it from where the path starts, each naming the
      next by the path's elements; it finds nothing if and only if a chain breaks off at a missing name or at something
      that is no directory. */
  lemma NameiIff(fs: Fs, cwd: int, path: seq<int>, i: int, j: int)
    requires From(path, cwd, i)
    ensures Namei(fs, cwd, path) == At(j) <==> Leads(fs, i, Elems(path, 0), j)
    ensures Namei(fs, cwd, path) == Absent <==> Missing(fs, i, Elems(path, 0))
    ensures Namei(fs, cwd, path) == Panicked <==> Gone(fs, i, Elems(path, 0))
  {
    hide Leads, Missing, Gone, Resolve, Elems;
    ResolveIff(fs, i, Elems(path, 0), j);
  }

  lemma {:induction false} ResolveParent(fs: Fs, i: int, es: seq<Name>)
    requires es != []
    ensures var r := Resolve(fs, i, es[..|es| - 1], false);
            Resolve(fs, i, es, true)
              == if r.At? && r.i !in fs then Panicked else if r.At? && fs[r.i].kind != DIR then Absent else r
    decreases |es|
  {
    if |es| > 1 && i in fs && fs[i].kind == DIR {
      var k := Find(fs[i].entries, es[0], 0);
      if k != -1 {
        ResolveParent(fs, fs[i].entries[k].inum, es[1..]);
        assert es[..|es| - 1][1..] == es[1..][..|es[1..]| - 1];
      }
    }
  }

  /** nameiparent finds directory d if and only if the path has an element and a chain by all its elements but the last
      leads to d; it finds nothing if and only if there is no element, the chain breaks off, or it leads to something
      that is no directory. */
  lemma NameiparentIff(fs: Fs, cwd: int, path: seq<int>, i: int, d: int)
    requires From(path, cwd, i)
    ensures var es := Elems(path, 0);
            Nameiparent(fs, cwd, path) == At(d) <==>
              es != [] && Leads(fs, i, es[..|es| - 1], d) && d in fs && fs[d].kind == DIR
    ensures var es := Elems(path, 0);
            Nameiparent(fs, cwd, path) == Absent <==>
              || es == []
              || Missing(fs, i, es[..|es| - 1])
              || (exists e :: Leads(fs, i, es[..|es| - 1], e) && e in fs && fs[e].kind != DIR)
  {
    hide Leads, Missing, Gone, Resolve, Elems;
    var es := Elems(path, 0);
    if es == [] {
      ParentOfNone(fs, i);
    } else {
      var up := es[..|es| - 1];
      ResolveParent(fs, i, es);
      ResolveIff(fs, i, up, d);
      forall e ensures Resolve(fs, i, up, false) == At(e) <==> Leads(fs, i, up, e) {
        ResolveIff(fs, i, up, e);
      }
    }
  }

  lemma ParentOfNone(fs: Fs, i: int)
    ensures Resolve(fs, i, [], true) == Absent
  {
  }
}
