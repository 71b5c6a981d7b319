/**
 * Runs of the directory operations that break the law of link counts: making or linking a file in a working
 * directory that has been removed, and linking a file 32767 times more after its first name.
 */
module LinkRuns {
  import opened PathNames
  import opened Links
  import opened Directories

  // ----- lookups of short paths

  predicate IsElem(s: seq<int>) { s != [] && IsPath(s) && forall k :: 0 <= k < |s| ==> s[k] != SLASH }

  lemma EndOfElem(path: seq<int>, p: int, e: int)
    requires 0 <= p <= e <= |path| && (forall k :: p <= k < e ==> path[k] != SLASH) && (e < |path| ==> path[e] == SLASH)
    ensures ElemEnd(path, p) == e
  {
    var r := ElemEnd(path, p);
    assert r < |path| ==> path[r] == SLASH;
  }

  lemma LastElem(path: seq<int>, p: int)
    requires 0 <= p < |path| && IsElem(path[p..])
    ensures Elems(path, p) == [Field(path[p..])]
  {
    assert forall k :: p <= k < |path| ==> path[k] == path[p..][k - p];
    EndOfElem(path, p, |path|);
    assert path[p..|path|] == path[p..];
    assert Elems(path, |path|) == [];
  }

  /** "s" and "/s". */
  lemma OneElem(s: seq<int>)
    requires IsElem(s)
    ensures Elems(s, 0) == [Field(s)] && Elems([SLASH] + s, 0) == [Field(s)] && IsPath([SLASH] + s)
  {
    assert s[0..] == s;
    LastElem(s, 0);
    var path := [SLASH] + s;
    assert path[1..] == s;
    LastElem(path, 1);
    assert AfterSlashes(path, 0) == AfterSlashes(path, 1) == 1;
  }

  /** "/s/t". */
  lemma TwoElems(s: seq<int>, t: seq<int>)
    requires IsElem(s) && IsElem(t)
    ensures var path := [SLASH] + s + [SLASH] + t; IsPath(path) && Elems(path, 0) == [Field(s), Field(t)]
  {
    var path := [SLASH] + s + [SLASH] + t;
    var e := 1 + |s|;
    assert path[1..e] == s && path[e] == SLASH && path[e + 1..] == t;
    assert forall k :: 1 <= k < e ==> path[k] == s[k - 1];
    EndOfElem(path, 1, e);
    LastElem(path, e + 1);
    assert AfterSlashes(path, e) == AfterSlashes(path, e + 1) == e + 1;
    assert Elems(path, e) == [Field(t)];
    assert AfterSlashes(path, 0) == AfterSlashes(path, 1) == 1;
  }

  /** A name other than the dots. */
  lemma NotDots(s: seq<int>)
    requires IsElem(s) && s != [46] && s != [46, 46]
    ensures Field(s) != Dot() && Field(s) != DotDot()
  {
    hide Field, Dot, DotDot;
    DotsNormal();
    SameElement(s, [46]);
    SameElement(s, [46, 46]);
  }

  /** All entries in use, and room for more. */
  predicate Dense(es: seq<Dirent>) { |es| < MAXENTRIES && forall k :: 0 <= k < |es| ==> es[k].inum != 0 }

  lemma DenseFree(es: seq<Dirent>, k: int)
    requires Dense(es) && FirstFree(es, k)
    ensures k == |es| && !Crammed(es)
  {
  }

  /** create of "/s" or of "s". */
  lemma Makes(fs: Fs, cwd: int, path: seq<int>, s: seq<int>, kind: Kind, c: int, r: Outcome, num: int, k: int, fs': Fs)
    requires c !in fs && CreateSpec(fs, cwd, path, kind, c, r, num, k, fs') && Elems(path, 0) == [Field(s)]
    requires var d := Start(path, cwd);
             && d in fs && fs[d].kind == DIR && Dense(fs[d].entries) && Find(fs[d].entries, Field(s), 0) == -1
    ensures var d := Start(path, cwd); r == Ok && num == c && fs' == New(fs, d, |fs[d].entries|, Field(s), c, kind)
  {
    hide Field, Elems, New;
    var d := Start(path, cwd);
    assert Nameiparent(fs, cwd, path) == At(d);
    if FirstFree(fs[d].entries, k) {
      DenseFree(fs[d].entries, k);
    }
  }

  lemma Find2(d: int, es: seq<Dirent>, name: Name)
    requires |es| >= 2 && es[0].name == Dot() && es[1].name == DotDot() && name != Dot() && name != DotDot()
    ensures Find(es, name, 0) == Find(es, name, 2)
  {
    assert Find(es, name, 0) == Find(es, name, 1);
  }

  /** namei of "/s", found at entry k of the root. */
  lemma OneStep(fs: Fs, cwd: int, path: seq<int>, s: seq<int>, k: int)
    requires path != [] && path[0] == SLASH && Elems(path, 0) == [Field(s)] && ROOT in fs && fs[ROOT].kind == DIR
             && k != -1
    requires Find(fs[ROOT].entries, Field(s), 0) == k
    ensures Namei(fs, cwd, path) == At(fs[ROOT].entries[k].inum)
  {
    hide Field, Elems;
    var es := Elems(path, 0);
    assert es[1..] == [] && es[0] == Field(s);
    assert Resolve(fs, fs[ROOT].entries[k].inum, es[1..], false) == At(fs[ROOT].entries[k].inum);
  }

  /** nameiparent of "/s/t", with the directory s found at entry k of the root. */
  lemma TwoSteps(fs: Fs, cwd: int, path: seq<int>, s: seq<int>, t: seq<int>, k: int)
    requires path != [] && path[0] == SLASH && Elems(path, 0) == [Field(s), Field(t)] && ROOT in fs
             && fs[ROOT].kind == DIR && k != -1
    requires Find(fs[ROOT].entries, Field(s), 0) == k && fs[ROOT].entries[k].inum in fs
             && fs[fs[ROOT].entries[k].inum].kind == DIR
    ensures Nameiparent(fs, cwd, path) == At(fs[ROOT].entries[k].inum) && Last(path) == Field(t)
  {
    hide Field, Elems;
    var es := Elems(path, 0);
    assert es[1..] == [Field(t)] && es[0] == Field(s);
    assert Resolve(fs, fs[ROOT].entries[k].inum, es[1..], true) == At(fs[ROOT].entries[k].inum);
  }

  // ----- a removed working directory

  function Dir(i: int, n: int, es: seq<Dirent>): Inode {
    Inode(DIR, n, [Dirent(i, Dot()), Dirent(ROOT, DotDot())] + es)
  }

  const D: seq<int> := [100]
  const F: seq<int> := [102]
  const X: seq<int> := [120]

  lemma Letter(b: int)
    requires 48 <= b < 256
    ensures IsElem([b]) && IsPath([b]) && IsPath([SLASH] + [b]) && Elems([b], 0) == [Field([b])]
            && Elems([SLASH] + [b], 0) == [Field([b])]
    ensures Field([b]) != Dot() && Field([b]) != DotDot()
  {
    hide Field, Elems;
    assert [b][0] == b && [46][0] == 46;
    NotDots([b]);
    OneElem([b]);
  }

  lemma Letters()
    ensures IsPath([SLASH] + D) && IsPath([SLASH] + F) && IsPath(X) && Field(D) != Field(F)
    ensures Elems([SLASH] + D, 0) == [Field(D)] && Elems([SLASH] + F, 0) == [Field(F)] && Elems(X, 0) == [Field(X)]
    ensures Field(D) != Dot() && Field(F) != Dot() && Field(X) != Dot()
    ensures Field(D) != DotDot() && Field(F) != DotDot() && Field(X) != DotDot()
  {
    hide Field, Elems, Dot, DotDot;
    Letter(100);
    Letter(102);
    Letter(120);
    SameElement(D, F);
    assert D[0] != F[0];
  }

  /** The root with the file "f", and with the directory "d". */
  function One(): Fs { map[ROOT := Dir(ROOT, 1, [Dirent(4, Field(F))]), 4 := Inode(FILE, 1, [])] }

  function Two(): Fs {
    map[ROOT := Dir(ROOT, 2, [Dirent(4, Field(F)), Dirent(2, Field(D))]), 4 := Inode(FILE, 1, []), 2 := Dir(2, 1, [])]
  }

  /** "d" is removed; its inode stays because it is in use. */
  function Three(): Fs {
    map[ROOT := Dir(ROOT, 1, [Dirent(4, Field(F)), Free()]), 4 := Inode(FILE, 1, []), 2 := Dir(2, 0, [])]
  }

  lemma ToOne(r: Outcome, num: int, k: int, fs: Fs)
    requires CreateSpec(Directories.RootOnly(), ROOT, [SLASH] + F, FILE, 4, r, num, k, fs)
    ensures r == Ok && fs == One() && fs != Directories.RootOnly()
    ensures Nameiparent(Directories.RootOnly(), ROOT, [SLASH] + F) == At(ROOT) && Live(Directories.RootOnly()[ROOT])
  {
    hide Field, Elems, Dot, DotDot;
    Letters();
    var fs0 := Directories.RootOnly();
    var es := fs0[ROOT].entries;
    Find2(ROOT, es, Field(F));
    Makes(fs0, ROOT, [SLASH] + F, F, FILE, 4, r, num, k, fs);
    assert Set(es, 2, Dirent(4, Field(F))) == es + [Dirent(4, Field(F))];
    assert fs == One();
    assert 4 in fs;
  }

  lemma ToTwo(r: Outcome, num: int, k: int, fs: Fs)
    requires CreateSpec(One(), ROOT, [SLASH] + D, DIR, 2, r, num, k, fs)
    ensures r == Ok && fs == Two() && fs != One() && Nameiparent(One(), ROOT, [SLASH] + D) == At(ROOT)
            && Live(One()[ROOT])
  {
    hide Field, Elems, Dot, DotDot;
    Letters();
    var es := One()[ROOT].entries;
    Find2(ROOT, es, Field(D));
    assert Find(es, Field(D), 2) == Find(es, Field(D), 3) == -1;
    Makes(One(), ROOT, [SLASH] + D, D, DIR, 2, r, num, k, fs);
    assert Dir(2, 1, []).entries == [Dirent(2, Dot()), Dirent(ROOT, DotDot())];
    assert Set(es, 3, Dirent(2, Field(D))) == Two()[ROOT].entries;
    assert fs == Two();
    assert 2 in fs;
  }

  lemma ToThree(r: Outcome, k: int, fs: Fs)
    requires UnlinkSpec(Two(), ROOT, [SLASH] + D, r, k, fs)
    ensures r == Ok && fs == Three()
  {
    hide Field, Elems, Dot, DotDot;
    Letters();
    var es := Two()[ROOT].entries;
    Find2(ROOT, es, Field(D));
    assert Find(es, Field(D), 2) == Find(es, Field(D), 3) == 3;
    assert Nameiparent(Two(), ROOT, [SLASH] + D) == At(ROOT);
    assert Set(es, 3, Free()) == Three()[ROOT].entries;
    assert fs == Three();
  }

  lemma ToFour(r: Outcome, num: int, k: int, fs: Fs)
    requires CreateSpec(Three(), 2, X, FILE, 5, r, num, k, fs)
    ensures r == Ok && 5 in fs && Nameiparent(Three(), 2, X) == At(2) && 2 in Three() && !Live(Three()[2])
  {
    hide Field, Elems, Dot, DotDot;
    Letters();
    var es := Three()[2].entries;
    Find2(2, es, Field(X));
    Makes(Three(), 2, X, X, FILE, 5, r, num, k, fs);
  }

  lemma ToFive(r: Outcome, k: int, fs: Fs)
    requires LinkSpec(Three(), 2, [SLASH] + F, X, r, k, fs)
    ensures r == Ok && Nameiparent(Three(), 2, X) == At(2) && 2 in Three() && !Live(Three()[2])
  {
    hide Field, Elems, Dot, DotDot;
    Letters();
    var es, rs := Three()[2].entries, Three()[ROOT].entries;
    Find2(2, es, Field(X));
    Find2(ROOT, rs, Field(F));
    assert Find(rs, Field(F), 2) == 2;
    assert Nameiparent(Three(), 2, X) == At(2);
    OneStep(Three(), 2, [SLASH] + F, F, 2);
    assert es[0].inum != 0 && es[1].inum != 0 && |es| == 2;
  }

  /** The directory "d" is made and removed while it is a process's working directory, inode 2.  Then a file made in
      it, or a file of the root linked into it, has a link count that is not the number of its names. */
  method DeadDirectory(link: bool) returns (dirs: Directories, r: Outcome)
    ensures r == Ok && !Law(dirs.inodes)
  {
    hide Good, Law, Field, Stored, Elems, Normal, Dot, DotDot, CreateSpec, UnlinkSpec, LinkSpec, One, Two, Three;
    hide Nameiparent, Live;
    Letters();
    dirs := new Directories();
    ghost var k;
    var num;
    Keys();
    r, num, k := dirs.Create(ROOT, [SLASH] + F, FILE, 4);
    ToOne(r, num, k, dirs.inodes);
    r, num, k := dirs.Create(ROOT, [SLASH] + D, DIR, 2);
    ToTwo(r, num, k, dirs.inodes);
    r, k := dirs.Unlink(ROOT, [SLASH] + D);
    ToThree(r, k, dirs.inodes);
    if link {
      r, k := dirs.Link(2, [SLASH] + F, X);
      ToFive(r, k, dirs.inodes);
    } else {
      r, num, k := dirs.Create(2, X, FILE, 5);
      ToFour(r, num, k, dirs.inodes);
    }
  }

  lemma Keys()
    ensures 4 !in Directories.RootOnly() && 2 !in One() && 5 !in Three()
  {
  }

  // ----- a link too many

  const A: seq<int> := [97]
  const B: seq<int> := [98]

  /** The names a directory takes besides its dots. */
  const ROOM: int := MAXENTRIES - 2

  /** Three bytes for a number below 32768. */
  function Digits(n: int): seq<int> { [48 + n / 1024, 48 + n / 32 % 32, 48 + n % 32] }

  lemma DigitsElem(n: int)
    requires 0 <= n < 32768
    ensures IsElem(Digits(n)) && Field(Digits(n)) != Dot() && Field(Digits(n)) != DotDot()
  {
    hide Field;
    NotDots(Digits(n));
  }

  lemma DigitsDiffer(m: int, n: int)
    requires 0 <= m < n < 32768
    ensures Field(Digits(m)) != Field(Digits(n))
  {
    hide Field, Digits;
    DigitsElem(m);
    DigitsElem(n);
    DigitsLength(m);
    DigitsLength(n);
    DigitsNumber(m);
    DigitsNumber(n);
    SameElement(Digits(m), Digits(n));
  }

  function Number(s: seq<int>): int
    requires |s| == 3
  {
    (s[0] - 48) * 1024 + (s[1] - 48) * 32 + s[2] - 48
  }

  lemma DigitsLength(n: int)
    ensures |Digits(n)| == 3
  {
  }

  lemma DigitsNumber(n: int)
    requires 0 <= n && |Digits(n)| == 3
    ensures Number(Digits(n)) == n
  {
  }

  /** Entries naming the file, for numbers lo..hi - 1. */
  function Run(lo: int, hi: int): (es: seq<Dirent>)
    requires lo <= hi
    ensures |es| == hi - lo && forall k :: 0 <= k < |es| ==> es[k] == Dirent(4, Field(Digits(lo + k)))
  {
    seq(hi - lo, k => Dirent(4, Field(Digits(lo + k))))
  }

  function Min(a: int, b: int): int { if a < b then a else b }

  function RootEntries(): seq<Dirent> { [Dirent(4, Field(F)), Dirent(2, Field(A)), Dirent(3, Field(B))] }

  /** The file "f" has been linked j times, into the directory "a" until it is full and then into "b". */
  function Linking(j: int): Fs
    requires 0 <= j
  {
    Packed(Run(0, Min(j, ROOM)), Run(Min(j, ROOM), j), 1 + j)
  }

  /** "a" holds the entries a, "b" holds b, and the file has n links. */
  function Packed(a: seq<Dirent>, b: seq<Dirent>, n: int): Fs {
    map[ROOT := Dir(ROOT, 3, RootEntries()), 4 := Inode(FILE, n, []), 2 := Dir(2, 1, a), 3 := Dir(3, 1, b)]
  }

  lemma PackedMore(a: seq<Dirent>, b: seq<Dirent>, n: int, d: int, name: Name)
    requires (d == 2 || d == 3) && IsShort(n + 1)
    ensures d in Packed(a, b, n) && 4 in Packed(a, b, n)
    ensures Linked(Packed(a, b, n), 4, d, |Packed(a, b, n)[d].entries|, name) ==
              if d == 2 then Packed(a + [Dirent(4, name)], b, n + 1) else Packed(a, b + [Dirent(4, name)], n + 1)
  {
    hide Dot, DotDot, RootEntries;
    var es, e := Packed(a, b, n)[d].entries, Dirent(4, name);
    assert Set(es, |es|, e) == if d == 2 then Dir(2, 1, a + [e]).entries else Dir(3, 1, b + [e]).entries;
  }

  /** The j-th name: "/a/..." or "/b/...". */
  function Into(j: int): seq<int> { [SLASH] + (if j < ROOM then A else B) + [SLASH] + Digits(j) }

  lemma IntoElems(j: int)
    requires 0 <= j < 32768
    ensures IsPath(Into(j)) && Elems(Into(j), 0) == [Field(if j < ROOM then A else B), Field(Digits(j))]
              && Into(j) != [] && Into(j)[0] == SLASH
  {
    hide Field, Elems;
    DigitsElem(j);
    TwoElems(if j < ROOM then A else B, Digits(j));
  }

  lemma MoreLetters()
    ensures IsPath([SLASH] + A) && IsPath([SLASH] + B) && IsPath([SLASH] + F)
    ensures Elems([SLASH] + A, 0) == [Field(A)] && Elems([SLASH] + B, 0) == [Field(B)]
            && Elems([SLASH] + F, 0) == [Field(F)]
    ensures Field(A) != Field(B) && Field(A) != Field(F) && Field(B) != Field(F)
    ensures Field(A) != Dot() && Field(B) != Dot() && Field(F) != Dot()
    ensures Field(A) != DotDot() && Field(B) != DotDot() && Field(F) != DotDot()
  {
    hide Field, Elems, Dot, DotDot;
    Letter(97);
    Letter(98);
    Letter(102);
    SameElement(A, B);
    SameElement(A, F);
    SameElement(B, F);
    assert A[0] == 97 && B[0] == 98 && F[0] == 102;
  }

  /** The root's entries are found. */
  lemma RootFinds(j: int)
    requires 0 <= j
    ensures var es := Linking(j)[ROOT].entries;
            && Find(es, Field(F), 0) == 2 && Find(es, Field(A), 0) == 3 && Find(es, Field(B), 0) == 4
  {
    hide Field, Elems, Dot, DotDot;
    MoreLetters();
    var es := Linking(j)[ROOT].entries;
    assert es[0] == Dirent(ROOT, Dot()) && es[1] == Dirent(ROOT, DotDot());
    assert es[2] == Dirent(4, Field(F)) && es[3] == Dirent(2, Field(A)) && es[4] == Dirent(3, Field(B));
  }

  /** The j-th name is new in its directory, which has room. */
  lemma NameIsNew(j: int)
    requires 0 <= j < 32768
    ensures var d := if j < ROOM then 2 else 3;
            && Find(Linking(j)[d].entries, Field(Digits(j)), 0) == -1 && Dense(Linking(j)[d].entries)
  {
    hide Field, Dot, DotDot;
    var d := if j < ROOM then 2 else 3;
    var es := Linking(j)[d].entries;
    DigitsElem(j);
    forall k | 0 <= k < |es| ensures es[k].inum != 0 && es[k].name != Field(Digits(j)) {
      if k >= 2 {
        var n := (if j < ROOM then 0 else ROOM) + k - 2;
        assert es[k] == Dirent(4, Field(Digits(n)));
        DigitsDiffer(n, j);
      }
    }
  }

  lemma LinkStep(j: int, r: Outcome, k: int, fs: Fs)
    requires 0 <= j < 32767 && LinkSpec(Linking(j), ROOT, [SLASH] + F, Into(j), r, k, fs)
    ensures r == Ok && Namei(Linking(j), ROOT, [SLASH] + F) == At(4)
    ensures Nameiparent(Linking(j), ROOT, Into(j)) == At(if j < ROOM then 2 else 3)
    ensures j < 32766 ==> fs == Linking(j + 1)
    ensures j == 32766 ==> 4 in fs && fs[4].nlink == -32768
  {
    hide Field, Elems, Dot, DotDot, Digits, Find, Resolve, Into;
    var fs0, d := Linking(j), if j < ROOM then 2 else 3;
    MoreLetters();
    IntoElems(j);
    RootFinds(j);
    NameIsNew(j);
    OneStep(fs0, ROOT, [SLASH] + F, F, 2);
    TwoSteps(fs0, ROOT, Into(j), if j < ROOM then A else B, Digits(j), if j < ROOM then 3 else 4);
    if FirstFree(fs0[d].entries, k) {
      DenseFree(fs0[d].entries, k);
    }
    if j < 32766 {
      StepIs(j, fs0, d);
    }
  }

  lemma StepIs(j: int, fs: Fs, d: int)
    requires 0 <= j < 32766 && d == (if j < ROOM then 2 else 3) && d in fs && 4 in fs && fs == Linking(j)
    ensures Linked(fs, 4, d, |fs[d].entries|, Field(Digits(j))) == Linking(j + 1)
  {
    hide Field, Digits, Packed, Linked, Run;
    var lo := if j < ROOM then 0 else ROOM;
    RunMore(lo, j);
    PackedMore(Run(0, Min(j, ROOM)), Run(Min(j, ROOM), j), 1 + j, d, Field(Digits(j)));
    RunNone(j);
    RunNone(j + 1);
  }

  lemma RunMore(lo: int, j: int)
    requires lo <= j
    ensures Run(lo, j) + [Dirent(4, Field(Digits(j)))] == Run(lo, j + 1)
  {
    hide Field, Digits;
  }

  lemma RunNone(j: int)
    ensures Run(j, j) == []
  {
    hide Field, Digits;
  }

  /** The root with "f", then with "a" too. */
  function OnlyA(): Fs {
    map[ROOT := Dir(ROOT, 2, [Dirent(4, Field(F)), Dirent(2, Field(A))]), 4 := Inode(FILE, 1, []), 2 := Dir(2, 1, [])]
  }

  lemma MakeA(r: Outcome, num: int, k: int, fs: Fs)
    requires CreateSpec(One(), ROOT, [SLASH] + A, DIR, 2, r, num, k, fs)
    ensures r == Ok && fs == OnlyA() && fs != One() && Nameiparent(One(), ROOT, [SLASH] + A) == At(ROOT)
            && Live(One()[ROOT])
  {
    hide Field, Elems, Dot, DotDot;
    MoreLetters();
    var es := One()[ROOT].entries;
    Find2(ROOT, es, Field(A));
    assert Find(es, Field(A), 2) == Find(es, Field(A), 3) == -1;
    Makes(One(), ROOT, [SLASH] + A, A, DIR, 2, r, num, k, fs);
    assert Dir(2, 1, []).entries == [Dirent(2, Dot()), Dirent(ROOT, DotDot())];
    assert Set(es, 3, Dirent(2, Field(A))) == OnlyA()[ROOT].entries;
    assert fs == OnlyA();
    assert 2 in fs;
  }

  lemma MakeB(r: Outcome, num: int, k: int, fs: Fs)
    requires CreateSpec(OnlyA(), ROOT, [SLASH] + B, DIR, 3, r, num, k, fs)
    ensures r == Ok && fs == Linking(0) && fs != OnlyA() && Nameiparent(OnlyA(), ROOT, [SLASH] + B) == At(ROOT)
            && Live(OnlyA()[ROOT])
  {
    hide Field, Elems, Dot, DotDot;
    MoreLetters();
    var es := OnlyA()[ROOT].entries;
    Find2(ROOT, es, Field(B));
    assert Find(es, Field(B), 2) == Find(es, Field(B), 3) == Find(es, Field(B), 4) == -1;
    Makes(OnlyA(), ROOT, [SLASH] + B, B, DIR, 3, r, num, k, fs);
    assert Dir(3, 1, []).entries == [Dirent(3, Dot()), Dirent(ROOT, DotDot())];
    assert Set(es, 4, Dirent(3, Field(B))) == Linking(0)[ROOT].entries;
    assert Run(0, 0) == [];
    assert fs == Linking(0);
    assert 3 in fs;
  }

  lemma StartKeys()
    ensures 4 !in Directories.RootOnly() && 2 !in One() && 3 !in OnlyA()
  {
  }

  lemma LinkingShape(j: int)
    requires 0 <= j < 32767
    ensures 4 in Linking(j) && Linking(j)[4].nlink == 1 + j
    ensures var d := if j < ROOM then 2 else 3; d in Linking(j) && Live(Linking(j)[d])
  {
  }

  /** After the overflow the first name of the file is still found, and unlinking it panics. */
  lemma FirstNamePanics(k: int, fs: Fs, r: Outcome, k': int, fs': Fs)
    requires LinkSpec(Linking(32766), ROOT, [SLASH] + F, Into(32766), Ok, k, fs)
             && UnlinkSpec(fs, ROOT, [SLASH] + F, r, k', fs')
    ensures r == Panic
  {
    hide Field, Elems, Dot, DotDot, Digits, Find, Resolve, Into, UnlinkSpec;
    LinkStep(32766, Ok, k, fs);
    MoreLetters();
    RootFinds(32766);
    RootKept(k, fs);
    UnlinkRoot(fs, r, k', fs');
  }

  lemma RootKept(k: int, fs: Fs)
    requires LinkSpec(Linking(32766), ROOT, [SLASH] + F, Into(32766), Ok, k, fs)
    requires Namei(Linking(32766), ROOT, [SLASH] + F) == At(4)
             && Nameiparent(Linking(32766), ROOT, Into(32766)) == At(3)
    ensures ROOT in fs && fs[ROOT] == Linking(32766)[ROOT]
  {
    hide Field, Elems, Dot, DotDot, Digits, Find, Resolve, Into, Namei, Nameiparent, Run;
  }

  lemma UnlinkRoot(fs: Fs, r: Outcome, k: int, fs': Fs)
    requires ROOT in fs && fs[ROOT].kind == DIR && 4 in fs && fs[4].nlink < 1
             && UnlinkSpec(fs, ROOT, [SLASH] + F, r, k, fs')
    requires Find(fs[ROOT].entries, Field(F), 0) == 2 && fs[ROOT].entries[2].inum == 4
    requires Elems([SLASH] + F, 0) == [Field(F)] && Field(F) != Dot() && Field(F) != DotDot()
    ensures r == Panic
  {
    hide Field, Elems, Dot, DotDot, Find;
    assert Nameiparent(fs, ROOT, [SLASH] + F) == At(ROOT);
  }

  /** A file gets its 32768th name, which makes its link count -32768 and breaks the law: fs is the file system
      then.  Removing a name of it panics. */
  method LinkTooMany() returns (r: Outcome, ghost fs: Fs, r': Outcome)
    ensures r == Ok && 4 in fs && fs[4].nlink == -32768 && !Law(fs) && r' == Panic
  {
    hide Good, Law, Field, Stored, Elems, Normal, Dot, DotDot, CreateSpec, UnlinkSpec, LinkSpec, One, OnlyA;
    hide Nameiparent, Namei, Live, Linking, Into;
    MoreLetters();
    StartKeys();
    var dirs := new Directories();
    ghost var k;
    var num;
    r, num, k := dirs.Create(ROOT, [SLASH] + F, FILE, 4);
    ToOne(r, num, k, dirs.inodes);
    r, num, k := dirs.Create(ROOT, [SLASH] + A, DIR, 2);
    MakeA(r, num, k, dirs.inodes);
    r, num, k := dirs.Create(ROOT, [SLASH] + B, DIR, 3);
    MakeB(r, num, k, dirs.inodes);
    for j := 0 to 32766
      invariant dirs.Valid() && dirs.inodes == Linking(j) && fresh(dirs)
    {
      IntoElems(j);
      r, k := dirs.Link(ROOT, [SLASH] + F, Into(j));
      LinkStep(j, r, k, dirs.inodes);
      LinkingShape(j);
    }
    IntoElems(32766);
    r, k := dirs.Link(ROOT, [SLASH] + F, Into(32766));
    LinkStep(32766, r, k, dirs.inodes);
    LinkingShape(32766);
    fs := dirs.inodes;
    ghost var k';
    r', k' := dirs.Unlink(ROOT, [SLASH] + F);
    FirstNamePanics(k, fs, r', k', dirs.inodes);
  }
}
