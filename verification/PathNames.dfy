/**
 * Names and paths as bytes: strncmp and strncpy of kernel/string.c as far as directories use them, namecmp and
 * skipelem of kernel/fs.c.  A C string is the sequence of its bytes before the terminating 0; reading past the
 * end of a sequence gives 0.
 */
module PathNames {

  const DIRSIZ: int := 14
  const SLASH: int := 47

  function ByteAt(s: seq<int>, i: int): int
    requires 0 <= i
  {
    if i < |s| then s[i] else 0
  }

  /** The first n bytes of s, or those before a 0 if there is one. */
  function Upto(s: seq<int>, n: int): (r: seq<int>)
    ensures |r| <= n || r == []
    ensures |r| <= |s| && r == s[..|r|] && (forall k :: 0 <= k < |r| ==> r[k] != 0)
    ensures |r| < n ==> ByteAt(s, |r|) == 0
    decreases |s|
  {
    if n <= 0 || s == [] || s[0] == 0 then [] else [s[0]] + Upto(s[1..], n - 1)
  }

  function Pad(s: seq<int>, n: int): (r: seq<int>)
    ensures |s| <= n ==> |r| == n && r[..|s|] == s && forall k :: |s| <= k < n ==> r[k] == 0
  {
    s + seq(if |s| <= n then n - |s| else 0, k => 0)
  }

  /** What a directory entry keeps of a name. */
  function Field(s: seq<int>): (f: seq<int>)
    ensures |f| == DIRSIZ
  {
    Pad(Upto(s, DIRSIZ), DIRSIZ)
  }

  /** A field as strncpy leaves it: zeros after the first zero. */
  predicate Normal(f: seq<int>) { Field(f) == f }

  lemma UptoIs(s: seq<int>, n: int, m: int)
    requires 0 <= m <= n && m <= |s| && (forall k :: 0 <= k < m ==> s[k] != 0) && (m < n ==> ByteAt(s, m) == 0)
    ensures Upto(s, n) == s[..m]
  {
    var r := Upto(s, n);
    assert |r| < n ==> ByteAt(s, |r|) == 0;
    assert forall k :: 0 <= k < |r| ==> r[k] == s[k];
  }

  lemma UptoLonger(s: seq<int>, n: int, k: int)
    requires 0 <= k < n && k < |s| && forall j :: 0 <= j <= k ==> s[j] != 0
    ensures |Upto(s, n)| > k && Upto(s, n)[k] == s[k]
  {
    assert |Upto(s, n)| < n ==> ByteAt(s, |Upto(s, n)|) == 0;
  }

  lemma FieldNormal(s: seq<int>)
    ensures Normal(Field(s)) && Upto(Field(s), DIRSIZ) == Upto(s, DIRSIZ)
  {
    var a := Upto(s, DIRSIZ);
    assert forall k :: 0 <= k < |a| ==> Field(s)[k] == Field(s)[..|a|][k] == a[k];
    UptoIs(Field(s), DIRSIZ, |a|);
  }

  /** Two names have the same field exactly when their first DIRSIZ bytes, up to a 0, agree. */
  lemma SameField(s: seq<int>, t: seq<int>)
    ensures Field(s) == Field(t) <==> Upto(s, DIRSIZ) == Upto(t, DIRSIZ)
  {
    FieldNormal(s);
    FieldNormal(t);
  }

  /** strncmp: 0 exactly when the strings agree in the first n bytes up to a 0; otherwise the difference of the
      first bytes that differ. */
  method Strncmp(p: seq<int>, q: seq<int>, n: int) returns (r: int)
    requires 0 <= n
    ensures r == 0 <==> Upto(p, n) == Upto(q, n)
    ensures r != 0 ==> exists k :: 0 <= k < n && Differ(p, q, k) && r == ByteAt(p, k) - ByteAt(q, k)
  {
    var i := 0;
    while i < n && ByteAt(p, i) != 0 && ByteAt(p, i) == ByteAt(q, i)
      invariant 0 <= i <= n && i <= |p| && i <= |q| && p[..i] == q[..i] && forall k :: 0 <= k < i ==> p[k] != 0
    {
      i := i + 1;
    }
    assert forall k :: 0 <= k < i ==> p[k] == p[..i][k] == q[..i][k] == q[k];
    if i == n {
      UptoIs(p, n, i);
      UptoIs(q, n, i);
      return 0;
    }
    r := ByteAt(p, i) - ByteAt(q, i);
    if r == 0 {
      UptoIs(p, n, i);
      UptoIs(q, n, i);
    } else {
      assert Differ(p, q, i);
      DifferUpto(p, q, n, i);
    }
  }

  /** The strings agree in bytes that are not 0 up to byte k, where they differ. */
  predicate Differ(p: seq<int>, q: seq<int>, k: int) {
    0 <= k <= |p| && k <= |q| && p[..k] == q[..k] && (forall j :: 0 <= j < k ==> p[j] != 0)
      && ByteAt(p, k) != ByteAt(q, k)
  }

  lemma DifferUpto(p: seq<int>, q: seq<int>, n: int, k: int)
    requires 0 <= k < n && Differ(p, q, k)
    ensures Upto(p, n) != Upto(q, n)
  {
    assert forall j :: 0 <= j < k ==> p[j] == p[..k][j] == q[..k][j] == q[j];
    if ByteAt(p, k) == 0 {
      UptoIs(p, n, k);
      UptoLonger(q, n, k);
    } else if ByteAt(q, k) == 0 {
      UptoIs(q, n, k);
      UptoLonger(p, n, k);
    } else {
      UptoLonger(p, n, k);
      UptoLonger(q, n, k);
    }
  }

  /** strncpy of n bytes: the bytes up to a 0, and zeros after them. */
  method Strncpy(t: seq<int>, n: int) returns (s: seq<int>)
    requires 0 <= n
    ensures s == Pad(Upto(t, n), n)
  {
    s := [];
    var stop := false;
    while |s| < n && !stop
      invariant |s| <= n
      invariant !stop ==> |s| <= |t| && s == t[..|s|] && forall k :: 0 <= k < |s| ==> t[k] != 0
      invariant stop ==> 0 < |s| && s == Pad(Upto(t, n), |s|) && |Upto(t, n)| == |s| - 1
      decreases n - |s|, if stop then 0 else 1
    {
      var b := ByteAt(t, |s|);
      if b == 0 {
        UptoIs(t, n, |s|);
      }
      s := s + [b];
      stop := b == 0;
    }
    if !stop {
      UptoIs(t, n, n);
    }
    while |s| < n
      invariant |s| <= n && |Upto(t, n)| <= |s| && s == Pad(Upto(t, n), |s|)
    {
      s := s + [0];
    }
  }

  method Namecmp(s: seq<int>, t: seq<int>) returns (r: int)
    ensures r == 0 <==> Field(s) == Field(t)
  {
    r := Strncmp(s, t, DIRSIZ);
    SameField(s, t);
  }

  // ----- path elements

  /** The first position from pos on that holds no slash. */
  function AfterSlashes(path: seq<int>, pos: int): (r: int)
    requires 0 <= pos <= |path|
    ensures pos <= r <= |path| && (r < |path| ==> path[r] != SLASH) && forall k :: pos <= k < r ==> path[k] == SLASH
    decreases |path| - pos
  {
    if pos < |path| && path[pos] == SLASH then AfterSlashes(path, pos + 1) else pos
  }

  /** The first position from pos on that holds a slash or is the end. */
  function ElemEnd(path: seq<int>, pos: int): (r: int)
    requires 0 <= pos <= |path|
    ensures pos <= r <= |path| && (r < |path| ==> path[r] == SLASH) && forall k :: pos <= k < r ==> path[k] != SLASH
    decreases |path| - pos
  {
    if pos < |path| && path[pos] != SLASH then ElemEnd(path, pos + 1) else pos
  }

  /** The fields of the elements of a path from position pos on. */
  function Elems(path: seq<int>, pos: int): seq<seq<int>>
    requires 0 <= pos <= |path|
    decreases |path| - pos
  {
    var p := AfterSlashes(path, pos);
    if p == |path| then [] else [Field(path[p..ElemEnd(path, p)])] + Elems(path, ElemEnd(path, p))
  }

  lemma ElemsSkip(path: seq<int>, pos: int)
    requires 0 <= pos <= |path|
    ensures Elems(path, AfterSlashes(path, pos)) == Elems(path, pos)
  {
    assert AfterSlashes(path, AfterSlashes(path, pos)) == AfterSlashes(path, pos);
  }

  /** The bytes of a path, none of them 0. */
  predicate IsPath(path: seq<int>) { forall k :: 0 <= k < |path| ==> 0 < path[k] < 256 }

  /** skipelem: the next element goes into name, of which the rest keeps what it held; the position of the
      element after it is returned, or -1 if there is none. */
  method Skipelem(path: seq<int>, pos: int, name: seq<int>) returns (next: int, name': seq<int>)
    requires IsPath(path) && 0 <= pos <= |path| && |name| == DIRSIZ
    ensures |name'| == DIRSIZ
    ensures next == -1 <==> Elems(path, pos) == []
    ensures next == -1 ==> name' == name
    ensures next != -1 ==> pos < next <= |path| && Elems(path, pos) == [Field(name')] + Elems(path, next)
    ensures next != -1 ==> (next == |path| <==> Elems(path, next) == [])
  {
    var p := pos;
    while p < |path| && path[p] == SLASH
      invariant pos <= p <= |path| && AfterSlashes(path, p) == AfterSlashes(path, pos)
    {
      p := p + 1;
    }
    if p == |path| {
      return -1, name;
    }
    var e := p;
    while e < |path| && path[e] != SLASH
      invariant p <= e <= |path| && ElemEnd(path, e) == ElemEnd(path, p)
    {
      e := e + 1;
    }
    if e - p >= DIRSIZ {
      name' := path[p..p + DIRSIZ];
    } else {
      name' := path[p..e] + [0] + name[e - p + 1..];
    }
    BufferField(path, p, e, name');
    next := e;
    while next < |path| && path[next] == SLASH
      invariant e <= next <= |path| && AfterSlashes(path, next) == AfterSlashes(path, e)
    {
      next := next + 1;
    }
    ElemsSkip(path, e);
  }

  /** What skipelem leaves in the buffer has the field of the element, whatever was there before. */
  lemma BufferField(path: seq<int>, p: int, e: int, name: seq<int>)
    requires IsPath(path) && 0 <= p < e <= |path|
    requires if e - p >= DIRSIZ then name == path[p..p + DIRSIZ]
             else e - p < |name| && name[..e - p] == path[p..e] && name[e - p] == 0
    ensures Field(name) == Field(path[p..e])
  {
    var s := path[p..e];
    if e - p >= DIRSIZ {
      UptoIs(name, DIRSIZ, DIRSIZ);
      UptoIs(s, DIRSIZ, DIRSIZ);
      assert name[..DIRSIZ] == s[..DIRSIZ];
    } else {
      assert forall k :: 0 <= k < e - p ==> name[k] == name[..e - p][k] == s[k];
      UptoIs(name, DIRSIZ, e - p);
      UptoIs(s, DIRSIZ, e - p);
    }
  }

  /** Elements of a path have the same field exactly when they agree in their first DIRSIZ bytes. */
  lemma SameElement(s: seq<int>, t: seq<int>)
    requires IsPath(s) && IsPath(t)
    ensures Field(s) == Field(t) <==> Head(s) == Head(t)
  {
    SameField(s, t);
    UptoIs(s, DIRSIZ, |Head(s)|);
    UptoIs(t, DIRSIZ, |Head(t)|);
  }

  function Head(s: seq<int>): seq<int> { if |s| <= DIRSIZ then s else s[..DIRSIZ] }
}
