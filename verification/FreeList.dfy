/**
 The user-level memory allocator of user/umalloc.c (section 8.7 of The C Programming Language,
 second edition): a circular list of free blocks in address order.  Addresses count bytes; a block
 is a 16-byte header followed by its payload, and sizes count headers.
 */
module FreeList {

  /** sizeof(Header) */
  const HDR: int := 16

  type Words = map<int, int>

  /** The allocator's memory: the ptr and size fields of every header, the free blocks in list order
      starting at base, the blocks in use with their sizes, the bytes obtained from sbrk, and an
      upper bound of all of them. */
  datatype Arena = Arena(ptr: Words, size: Words, ring: seq<int>, live: Words, obtained: iset<int>, brk: int)

  /** The address after the block at a. */
  ghost function End(size: Words, a: int): int
    requires a in size
  {
    a + HDR * size[a]
  }

  /** ptr links the addresses in ring into one circle, in the order of ring. */
  ghost predicate Linked(ptr: Words, ring: seq<int>) {
    && |ring| >= 1
    && (forall i :: 0 <= i < |ring| ==> ring[i] in ptr)
    && (forall i {:trigger ptr[ring[i]]} :: 0 <= i < |ring| - 1 ==> ptr[ring[i]] == ring[i + 1])
    && ptr[ring[|ring| - 1]] == ring[0]
  }

  ghost predicate Sized(size: Words, ring: seq<int>) {
    && (forall i :: 0 <= i < |ring| ==> ring[i] in size && size[ring[i]] >= 0)
    && (forall i :: 1 <= i < |ring| ==> size[ring[i]] >= 1)
  }

  /** The blocks of ring are in increasing address order and do not overlap. */
  ghost predicate Ordered(size: Words, ring: seq<int>) {
    && Sized(size, ring)
    && (forall i, j :: 0 <= i < j < |ring| ==> ring[i] < ring[j] && End(size, ring[i]) <= ring[j])
  }

  /** Block i of the ring does not touch the one after it. */
  ghost predicate Gap(size: Words, ring: seq<int>, i: int)
    requires Sized(size, ring) && 0 <= i < |ring|
  {
    i + 1 < |ring| ==> End(size, ring[i]) < ring[i + 1]
  }

  /** No two free blocks are adjacent. */
  ghost predicate Coalesced(size: Words, ring: seq<int>)
    requires Sized(size, ring)
  {
    forall i :: 0 <= i < |ring| ==> Gap(size, ring, i)
  }

  ghost predicate InFree(size: Words, ring: seq<int>, a: int)
    requires Sized(size, ring)
  {
    exists i :: 1 <= i < |ring| && ring[i] <= a < End(size, ring[i])
  }

  ghost predicate InLive(live: Words, a: int) {
    exists b :: b in live && b <= a < End(live, b)
  }

  ghost predicate Clear(size: Words, a: int, live: Words, b: int)
    requires a in size && b in live
  {
    End(live, b) <= a || End(size, a) <= b
  }

  /** No live block overlaps another one or a free one. */
  ghost predicate Apart(size: Words, ring: seq<int>, live: Words)
    requires Sized(size, ring)
  {
    && (forall b, c :: b in live && c in live && b < c ==> End(live, b) <= c)
    && (forall b, i :: b in live && 0 <= i < |ring| ==> Clear(size, ring[i], live, b))
  }

  /** Free and live blocks together make up exactly the memory obtained from sbrk. */
  ghost predicate Tiles(size: Words, ring: seq<int>, live: Words, obtained: iset<int>)
    requires Sized(size, ring)
  {
    forall a :: a in obtained <==> InFree(size, ring, a) || InLive(live, a)
  }

  ghost predicate FreeBounded(size: Words, ring: seq<int>, base: int, brk: int)
    requires Sized(size, ring)
  {
    && |ring| >= 1 && ring[0] == base && size[base] == 0
    && (forall i :: 0 <= i < |ring| ==> End(size, ring[i]) <= brk)
  }

  /** Every live block lies above base and its header still holds its size. */
  ghost predicate LiveBounded(size: Words, live: Words, base: int, brk: int) {
    forall b :: b in live ==> b in size && size[b] == live[b] >= 1 && base < b && End(live, b) <= brk
  }

  /** The allocator's invariant, except that neighbouring free blocks may touch. */
  ghost predicate Sound(x: Arena, base: int) {
    && Linked(x.ptr, x.ring)
    && Ordered(x.size, x.ring)
    && Apart(x.size, x.ring, x.live)
    && Tiles(x.size, x.ring, x.live, x.obtained)
    && FreeBounded(x.size, x.ring, base, x.brk)
    && LiveBounded(x.size, x.live, base, x.brk)
  }

  // ----- operations on the list of free blocks

  /** The ring with bp after position t. */
  ghost function Insert(ring: seq<int>, t: int, bp: int): (r: seq<int>)
    requires 0 <= t < |ring|
    ensures |r| == |ring| + 1
    ensures forall i {:trigger r[i]} :: 0 <= i <= t ==> r[i] == ring[i]
    ensures r[t + 1] == bp
    ensures forall i {:trigger r[i]} :: t + 1 < i < |r| ==> r[i] == ring[i - 1]
  {
    ring[..t + 1] + [bp] + ring[t + 1..]
  }

  /** The ring without the block after position t. */
  ghost function Without(ring: seq<int>, t: int): (r: seq<int>)
    requires 0 <= t < |ring| - 1
    ensures |r| == |ring| - 1
    ensures forall i {:trigger r[i]} :: 0 <= i <= t ==> r[i] == ring[i]
    ensures forall i {:trigger r[i]} :: t < i < |r| ==> r[i] == ring[i + 1]
  {
    ring[..t + 1] + ring[t + 2..]
  }

  ghost predicate OnlyAt(ring: seq<int>, t: int)
    requires 0 <= t < |ring|
  {
    forall k :: 0 <= k < |ring| && k != t ==> ring[k] != ring[t]
  }

  lemma LinkedInsert(ptr: Words, ring: seq<int>, t: int, bp: int)
    requires Linked(ptr, ring) && bp !in ring && 0 <= t < |ring| && OnlyAt(ring, t)
    ensures Linked(ptr[bp := ptr[ring[t]]][ring[t] := bp], Insert(ring, t, bp))
  {
    var ptr' := ptr[bp := ptr[ring[t]]][ring[t] := bp];
    var r := Insert(ring, t, bp);
    forall i | 0 <= i < |ring|
      ensures r[i] in ptr' && ptr'[r[i]] == r[i + 1]
    {
      if i < t {
        assert ptr[ring[i]] == ring[i + 1];
      } else if i > t {
        assert ptr[ring[i - 1]] == ring[i];
      }
    }
  }

  lemma LinkedWithout(ptr: Words, ring: seq<int>, t: int)
    requires Linked(ptr, ring) && 0 <= t < |ring| - 1 && OnlyAt(ring, t)
    ensures Linked(ptr[ring[t] := ptr[ring[t + 1]]], Without(ring, t))
  {
    var ptr' := ptr[ring[t] := ptr[ring[t + 1]]];
    var r := Without(ring, t);
    forall i | 0 <= i < |r| - 1
      ensures ptr'[r[i]] == r[i + 1]
    {
      if i < t {
        assert ptr[ring[i]] == ring[i + 1];
      } else {
        assert ptr[ring[i + 1]] == ring[i + 2];
      }
    }
  }

  /** Block bp lies between ring[t] and the next block, or after the last one. */
  ghost predicate Between(ring: seq<int>, t: int, bp: int) {
    && 0 <= t < |ring|
    && ring[t] < bp
    && (t + 1 < |ring| ==> bp < ring[t + 1])
  }

  /** Live block bp becomes a free block after position t. */
  ghost function Release(x: Arena, t: int, bp: int): Arena
    requires 0 <= t < |x.ring| && x.ring[t] in x.ptr
  {
    x.(ptr := x.ptr[bp := x.ptr[x.ring[t]]][x.ring[t] := bp],
       ring := Insert(x.ring, t, bp),
       live := x.live - {bp})
  }

  lemma FreeSpaceInsert(size: Words, ring: seq<int>, t: int, bp: int, a: int)
    requires Sized(size, ring) && 0 <= t < |ring| && Sized(size, Insert(ring, t, bp))
    requires InFree(size, ring, a) || (bp in size && bp <= a < End(size, bp))
    ensures InFree(size, Insert(ring, t, bp), a)
  {
    var r := Insert(ring, t, bp);
    if InFree(size, ring, a) {
      var i :| 1 <= i < |ring| && ring[i] <= a < End(size, ring[i]);
      assert r[if i <= t then i else i + 1] == ring[i];
    } else {
      assert r[t + 1] == bp;
    }
  }

  lemma FreeSpaceInserted(size: Words, ring: seq<int>, t: int, bp: int, a: int)
    requires Sized(size, ring) && 0 <= t < |ring| && Sized(size, Insert(ring, t, bp))
    requires InFree(size, Insert(ring, t, bp), a)
    ensures InFree(size, ring, a) || (bp in size && bp <= a < End(size, bp))
  {
    var r := Insert(ring, t, bp);
    var i :| 1 <= i < |r| && r[i] <= a < End(size, r[i]);
    if i <= t {
      assert ring[i] == r[i];
    } else if i > t + 1 {
      assert ring[i - 1] == r[i];
    }
  }

  lemma LiveWithout(live: Words, bp: int, a: int)
    requires bp in live
    ensures InLive(live, a) <==> InLive(live - {bp}, a) || bp <= a < End(live, bp)
  {
    if InLive(live, a) {
      var b :| b in live && b <= a < End(live, b);
      assert b == bp || b in live - {bp};
    }
    if InLive(live - {bp}, a) {
      var b :| b in live - {bp} && b <= a < End(live - {bp}, b);
      assert b in live;
    }
  }

  lemma ReleaseTiles(x: Arena, base: int, t: int, bp: int)
    requires Sound(x, base) && bp in x.live && 0 <= t < |x.ring|
    requires Sized(x.size, Insert(x.ring, t, bp))
    ensures Tiles(x.size, Insert(x.ring, t, bp), x.live - {bp}, x.obtained)
  {
    var r := Insert(x.ring, t, bp);
    forall a
      ensures a in x.obtained <==> InFree(x.size, r, a) || InLive(x.live - {bp}, a)
    {
      LiveWithout(x.live, bp, a);
      if InFree(x.size, x.ring, a) || bp <= a < End(x.size, bp) {
        FreeSpaceInsert(x.size, x.ring, t, bp, a);
      }
      if InFree(x.size, r, a) {
        FreeSpaceInserted(x.size, x.ring, t, bp, a);
      }
    }
  }

  /** n headers at bp fit between the blocks up to position t and those after it. */
  ghost predicate FitsAfter(size: Words, ring: seq<int>, t: int, bp: int, n: int)
    requires Sized(size, ring)
  {
    && (forall i :: 0 <= i <= t < |ring| ==> ring[i] < bp && End(size, ring[i]) <= bp)
    && (forall i :: 0 <= t < i < |ring| ==> bp < ring[i] && bp + HDR * n <= ring[i])
  }

  lemma LiveFits(x: Arena, base: int, t: int, bp: int)
    requires Sound(x, base) && bp in x.live && Between(x.ring, t, bp)
    ensures FitsAfter(x.size, x.ring, t, bp, x.live[bp])
  {
    forall i | t + 1 < i < |x.ring|
      ensures bp < x.ring[i]
    {
      assert x.ring[t + 1] < x.ring[i];
    }
    forall i | 0 <= i < t
      ensures x.ring[i] < bp
    {
      assert x.ring[i] < x.ring[t];
    }
  }

  lemma OrderedInsert(size: Words, ring: seq<int>, t: int, bp: int)
    requires Ordered(size, ring) && 0 <= t < |ring| && bp in size && size[bp] >= 1
    requires FitsAfter(size, ring, t, bp, size[bp])
    ensures Ordered(size, Insert(ring, t, bp))
  {
  }

  lemma ApartInsert(size: Words, ring: seq<int>, t: int, bp: int, live: Words)
    requires Sized(size, ring) && 0 <= t < |ring| && bp in live && bp in size && size[bp] == live[bp] >= 1
    requires Apart(size, ring, live)
    requires Sized(size, Insert(ring, t, bp))
    ensures Apart(size, Insert(ring, t, bp), live - {bp})
  {
    var r, rest := Insert(ring, t, bp), live - {bp};
    forall b, i | b in rest && 0 <= i < |r|
      ensures Clear(size, r[i], rest, b)
    {
      if i == t + 1 {
        assert End(live, b) <= bp || End(live, bp) <= b;
      } else {
        assert Clear(size, if i <= t then ring[i] else ring[i - 1], live, b);
      }
    }
  }

  lemma ReleaseKeeps(x: Arena, base: int, t: int, bp: int)
    requires Sound(x, base) && bp in x.live && Between(x.ring, t, bp)
    ensures Sound(Release(x, t, bp), base)
  {
    assert bp !in x.ring;
    LiveFits(x, base, t, bp);
    OrderedInsert(x.size, x.ring, t, bp);
    ApartInsert(x.size, x.ring, t, bp, x.live);
    ReleaseTiles(x, base, t, bp);
    LinkedInsert(x.ptr, x.ring, t, bp);
  }

  ghost function Grown(size: Words, ring: seq<int>, k: int): Words
    requires Sized(size, ring) && 0 <= k < |ring| - 1
  {
    size[ring[k] := size[ring[k]] + size[ring[k + 1]]]
  }

  /** The free block at position k absorbs the one after it, which it touches. */
  ghost function Merge(x: Arena, k: int): Arena
    requires 0 <= k < |x.ring| - 1 && Linked(x.ptr, x.ring) && Sized(x.size, x.ring)
  {
    x.(ptr := x.ptr[x.ring[k] := x.ptr[x.ring[k + 1]]],
       size := Grown(x.size, x.ring, k),
       ring := Without(x.ring, k))
  }

  ghost predicate Touching(size: Words, ring: seq<int>, k: int)
    requires Sized(size, ring)
  {
    1 <= k < |ring| - 1 && End(size, ring[k]) == ring[k + 1]
  }

  lemma OrderedMerge(size: Words, ring: seq<int>, k: int)
    requires Ordered(size, ring) && Touching(size, ring, k)
    ensures Ordered(Grown(size, ring, k), Without(ring, k))
  {
    var size', r := Grown(size, ring, k), Without(ring, k);
    forall i | 0 <= i < |r| && i != k
      ensures r[i] != ring[k] && r[i] in size && size'[r[i]] == size[r[i]]
    {
    }
    assert End(size', r[k]) == End(size, ring[k + 1]);
  }

  lemma FreeSpaceMerge(size: Words, ring: seq<int>, k: int, a: int)
    requires Ordered(size, ring) && Touching(size, ring, k)
    requires Sized(Grown(size, ring, k), Without(ring, k))
    requires InFree(size, ring, a)
    ensures InFree(Grown(size, ring, k), Without(ring, k), a)
  {
    hide Ordered;
    OrderedSized(size, ring);
    var size', r := Grown(size, ring, k), Without(ring, k);
    var i :| 1 <= i < |ring| && ring[i] <= a < End(size, ring[i]);
    var j := if i <= k then i else i - 1;
    GrownEnd(size, ring, k, i);
    assert 1 <= j < |r| && r[j] <= a < End(size', r[j]);
  }

  lemma OrderedSized(size: Words, ring: seq<int>)
    requires Ordered(size, ring)
    ensures Sized(size, ring)
  {
  }

  /** The merged block ends where the second one did; the others end where they did. */
  lemma GrownEnd(size: Words, ring: seq<int>, k: int, i: int)
    requires Ordered(size, ring) && Touching(size, ring, k) && 1 <= i < |ring|
    ensures 1 <= k < |ring| - 1 && ring[k] in Grown(size, ring, k) && ring[i] in size && ring[k] < ring[k + 1]
    ensures End(Grown(size, ring, k), ring[k]) == End(size, ring[k + 1])
            && End(size, ring[k]) == ring[k + 1] <= End(size, ring[k + 1])
    ensures i != k ==> ring[i] in Grown(size, ring, k) && End(Grown(size, ring, k), ring[i]) == End(size, ring[i])
  {
    assert i != k ==> ring[i] != ring[k];
  }

  lemma FreeSpaceMerged(size: Words, ring: seq<int>, k: int, a: int)
    requires Ordered(size, ring) && Touching(size, ring, k)
    requires Sized(Grown(size, ring, k), Without(ring, k))
    requires InFree(Grown(size, ring, k), Without(ring, k), a)
    ensures InFree(size, ring, a)
  {
    hide Ordered, Grown;
    OrderedSized(size, ring);
    var size', r := Grown(size, ring, k), Without(ring, k);
    var j :| 1 <= j < |r| && r[j] <= a < End(size', r[j]);
    var i := if j <= k then j else j + 1;
    GrownEnd(size, ring, k, i);
    assert r[j] == ring[i];
    var at := if j == k && a >= ring[k + 1] then k + 1 else i;
    assert 1 <= at < |ring| && ring[at] <= a < End(size, ring[at]);
  }

  lemma ApartMerge(size: Words, ring: seq<int>, k: int, live: Words)
    requires Ordered(size, ring) && Touching(size, ring, k) && Apart(size, ring, live)
    requires forall b :: b in live ==> live[b] >= 1
    requires Sized(Grown(size, ring, k), Without(ring, k))
    ensures Apart(Grown(size, ring, k), Without(ring, k), live)
  {
    var size', r := Grown(size, ring, k), Without(ring, k);
    forall b, i | b in live && 0 <= i < |r|
      ensures Clear(size', r[i], live, b)
    {
      if i == k {
        assert Clear(size, ring[k], live, b) && Clear(size, ring[k + 1], live, b);
      } else {
        assert Clear(size, if i < k then ring[i] else ring[i + 1], live, b);
      }
    }
  }

  lemma TilesMerge(size: Words, ring: seq<int>, k: int, live: Words, obtained: iset<int>)
    requires Ordered(size, ring) && Touching(size, ring, k)
    requires Sized(Grown(size, ring, k), Without(ring, k))
    requires Tiles(size, ring, live, obtained)
    ensures Tiles(Grown(size, ring, k), Without(ring, k), live, obtained)
  {
    forall a
      ensures InFree(size, ring, a) <==> InFree(Grown(size, ring, k), Without(ring, k), a)
    {
      if InFree(size, ring, a) {
        FreeSpaceMerge(size, ring, k, a);
      }
      if InFree(Grown(size, ring, k), Without(ring, k), a) {
        FreeSpaceMerged(size, ring, k, a);
      }
    }
  }

  lemma NotLive(x: Arena, base: int, k: int)
    requires Sound(x, base) && 0 <= k < |x.ring|
    ensures x.ring[k] !in x.live
  {
  }

  lemma GrownAt(size: Words, ring: seq<int>, k: int, i: int)
    requires Ordered(size, ring) && 0 <= k < |ring| - 1 && 0 <= i < |ring| && i != k
    ensures ring[i] in Grown(size, ring, k) && Grown(size, ring, k)[ring[i]] == size[ring[i]]
  {
    assert if i < k then ring[i] < ring[k] else ring[k] < ring[i];
  }

  lemma BoundedMergeAt(size: Words, ring: seq<int>, brk: int, k: int, i: int)
    requires Ordered(size, ring) && forall j :: 0 <= j < |ring| ==> End(size, ring[j]) <= brk
    requires Touching(size, ring, k) && 0 <= i < |ring| - 1
    ensures Without(ring, k)[i] in Grown(size, ring, k)
    ensures End(Grown(size, ring, k), Without(ring, k)[i]) <= brk
  {
    if i == k {
      assert End(Grown(size, ring, k), ring[k]) == End(size, ring[k + 1]);
    } else {
      var j := if i < k then i else i + 1;
      GrownAt(size, ring, k, j);
      assert Without(ring, k)[i] == ring[j];
      assert End(Grown(size, ring, k), ring[j]) == End(size, ring[j]);
    }
  }

  lemma FreeBoundedMerge(size: Words, ring: seq<int>, base: int, brk: int, k: int)
    requires Ordered(size, ring) && FreeBounded(size, ring, base, brk) && Touching(size, ring, k)
    requires Sized(Grown(size, ring, k), Without(ring, k))
    ensures FreeBounded(Grown(size, ring, k), Without(ring, k), base, brk)
  {
    GrownAt(size, ring, k, 0);
    forall i | 0 <= i < |ring| - 1
      ensures End(Grown(size, ring, k), Without(ring, k)[i]) <= brk
    {
      BoundedMergeAt(size, ring, brk, k, i);
    }
  }

  lemma MergeKeepsOrder(x: Arena, base: int, k: int)
    requires Sound(x, base) && Touching(x.size, x.ring, k)
    ensures Linked(Merge(x, k).ptr, Merge(x, k).ring)
    ensures Ordered(Merge(x, k).size, Merge(x, k).ring)
    ensures FreeBounded(Merge(x, k).size, Merge(x, k).ring, base, x.brk)
  {
    OrderedMerge(x.size, x.ring, k);
    LinkedWithout(x.ptr, x.ring, k);
    FreeBoundedMerge(x.size, x.ring, base, x.brk, k);
  }

  lemma MergeKeepsSpace(x: Arena, base: int, k: int)
    requires Sound(x, base) && Touching(x.size, x.ring, k)
    requires Sized(Merge(x, k).size, Merge(x, k).ring)
    ensures Apart(Merge(x, k).size, Merge(x, k).ring, x.live)
    ensures Tiles(Merge(x, k).size, Merge(x, k).ring, x.live, x.obtained)
    ensures LiveBounded(Merge(x, k).size, x.live, base, x.brk)
  {
    NotLive(x, base, k);
    ApartMerge(x.size, x.ring, k, x.live);
    TilesMerge(x.size, x.ring, k, x.live, x.obtained);
  }

  lemma MergeKeeps(x: Arena, base: int, k: int)
    requires Sound(x, base) && Touching(x.size, x.ring, k)
    ensures Sound(Merge(x, k), base)
  {
    MergeKeepsOrder(x, base, k);
    MergeKeepsSpace(x, base, k);
  }

  // ----- malloc: a whole free block, or the tail of a larger one

  /** The whole free block at position k goes into use. */
  ghost function Take(x: Arena, k: int): Arena
    requires 1 <= k < |x.ring| && Linked(x.ptr, x.ring) && Sized(x.size, x.ring)
  {
    x.(ptr := x.ptr[x.ring[k - 1] := x.ptr[x.ring[k]]],
       ring := Without(x.ring, k - 1),
       live := x.live[x.ring[k] := x.size[x.ring[k]]])
  }

  /** Where the last n headers of the free block at position k start. */
  ghost function Tail(size: Words, ring: seq<int>, k: int, n: int): int
    requires Sized(size, ring) && 1 <= k < |ring|
  {
    ring[k] + HDR * (size[ring[k]] - n)
  }

  ghost function Shrunk(size: Words, ring: seq<int>, k: int, n: int): Words
    requires Sized(size, ring) && 1 <= k < |ring|
  {
    size[ring[k] := size[ring[k]] - n][Tail(size, ring, k, n) := n]
  }

  /** The last n headers of the free block at position k go into use. */
  ghost function Split(x: Arena, k: int, n: int): Arena
    requires 1 <= k < |x.ring| && Sized(x.size, x.ring)
  {
    x.(size := Shrunk(x.size, x.ring, k, n), live := x.live[Tail(x.size, x.ring, k, n) := n])
  }

  ghost predicate InSpan(a: int, p: int, n: int) {
    p <= a < p + HDR * n
  }

  ghost function Span(p: int, n: int): iset<int> {
    iset a | InSpan(a, p, n)
  }

  /** n headers of new memory at p, in use. */
  ghost function Extend(x: Arena, p: int, n: int): Arena {
    x.(size := x.size[p := n],
       live := x.live[p := n],
       obtained := x.obtained + Span(p, n),
       brk := p + HDR * n)
  }

  lemma OrderedWithout(size: Words, ring: seq<int>, t: int)
    requires Ordered(size, ring) && 0 <= t < |ring| - 1
    ensures Ordered(size, Without(ring, t))
  {
    var r := Without(ring, t);
    forall i | 0 <= i < |r|
      ensures r[i] in size && size[r[i]] >= 0 && (i >= 1 ==> size[r[i]] >= 1)
    {
      assert r[i] == ring[if i <= t then i else i + 1];
    }
    forall i, j | 0 <= i < j < |r|
      ensures r[i] < r[j] && End(size, r[i]) <= r[j]
    {
      assert r[i] == ring[if i <= t then i else i + 1];
      assert r[j] == ring[if j <= t then j else j + 1];
    }
  }

  lemma TakeOrder(x: Arena, base: int, k: int)
    requires Sound(x, base) && 1 <= k < |x.ring|
    ensures Linked(Take(x, k).ptr, Take(x, k).ring)
    ensures Ordered(x.size, Take(x, k).ring)
    ensures FreeBounded(x.size, Take(x, k).ring, base, x.brk)
  {
    hide Apart, Tiles, LiveBounded, Linked;
    OnlyThere(x.size, x.ring, k - 1);
    OrderedWithout(x.size, x.ring, k - 1);
    LinkedWithout(x.ptr, x.ring, k - 1);
    BoundedWithout(x.size, x.ring, base, x.brk, k - 1);
  }

  lemma OnlyThere(size: Words, ring: seq<int>, t: int)
    requires Ordered(size, ring) && 0 <= t < |ring|
    ensures OnlyAt(ring, t)
  {
  }

  lemma BoundedWithout(size: Words, ring: seq<int>, base: int, brk: int, t: int)
    requires Ordered(size, ring) && FreeBounded(size, ring, base, brk) && 0 <= t < |ring| - 1
             && Sized(size, Without(ring, t))
    ensures FreeBounded(size, Without(ring, t), base, brk)
  {
    var r := Without(ring, t);
    forall i | 0 <= i < |r| ensures End(size, r[i]) <= brk {
      assert r[i] == ring[if i <= t then i else i + 1];
    }
  }

  lemma TakeApart(size: Words, ring: seq<int>, k: int, live: Words)
    requires Ordered(size, ring) && Apart(size, ring, live) && 1 <= k < |ring|
    requires forall b :: b in live ==> live[b] >= 1
    ensures Apart(size, Without(ring, k - 1), live[ring[k] := size[ring[k]]])
  {
    var r, live' := Without(ring, k - 1), live[ring[k] := size[ring[k]]];
    forall b, i | b in live' && 0 <= i < |r|
      ensures Clear(size, r[i], live', b)
    {
      var j := if i < k then i else i + 1;
      assert r[i] == ring[j];
      if b == ring[k] {
        assert if j < k then End(size, ring[j]) <= ring[k] else End(size, ring[k]) <= ring[j];
      } else {
        assert Clear(size, ring[j], live, b);
      }
    }
    forall b | b in live && b != ring[k]
      ensures End(live, b) <= ring[k] || End(size, ring[k]) <= b
    {
      assert Clear(size, ring[k], live, b);
    }
  }

  lemma LiveWith(live: Words, b: int, n: int, a: int)
    requires b !in live
    ensures InLive(live[b := n], a) <==> InLive(live, a) || b <= a < b + HDR * n
  {
    var live' := live[b := n];
    LiveWithout(live', b, a);
    assert live' - {b} == live;
  }

  lemma TakeTiles(size: Words, ring: seq<int>, k: int, live: Words, obtained: iset<int>)
    requires Ordered(size, ring) && Tiles(size, ring, live, obtained) && 1 <= k < |ring| && ring[k] !in live
    requires Sized(size, Without(ring, k - 1))
    ensures Tiles(size, Without(ring, k - 1), live[ring[k] := size[ring[k]]], obtained)
  {
    forall a
      ensures a in obtained <==> InFree(size, Without(ring, k - 1), a) || InLive(live[ring[k] := size[ring[k]]], a)
    {
      LiveWith(live, ring[k], size[ring[k]], a);
      FreeSpaceWithout(size, ring, k, a);
    }
  }

  lemma FreeSpaceWithout(size: Words, ring: seq<int>, k: int, a: int)
    requires Sized(size, ring) && 1 <= k < |ring| && Sized(size, Without(ring, k - 1))
    ensures InFree(size, ring, a)
            <==> InFree(size, Without(ring, k - 1), a) || ring[k] <= a < End(size, ring[k])
  {
    var r := Without(ring, k - 1);
    assert Insert(r, k - 1, ring[k]) == ring;
    if InFree(size, r, a) || ring[k] <= a < End(size, ring[k]) {
      FreeSpaceInsert(size, r, k - 1, ring[k], a);
    }
    if InFree(size, ring, a) {
      FreeSpaceInserted(size, r, k - 1, ring[k], a);
    }
  }

  lemma TakeKeeps(x: Arena, base: int, k: int)
    requires Sound(x, base) && 1 <= k < |x.ring|
    ensures Sound(Take(x, k), base)
  {
    NotLive(x, base, k);
    TakeOrder(x, base, k);
    TakeApart(x.size, x.ring, k, x.live);
    TakeTiles(x.size, x.ring, k, x.live, x.obtained);
  }

  // the tail of a larger block

  /** An address inside the free block at position k, past its header, starts no other block. */
  lemma InsideIsFresh(x: Arena, base: int, k: int, a: int)
    requires Sound(x, base) && 1 <= k < |x.ring| && x.ring[k] < a < End(x.size, x.ring[k])
    ensures a !in x.live
    ensures NotInRing(x.ring, a)
  {
    forall i | 0 <= i < |x.ring|
      ensures x.ring[i] != a
    {
      assert i < k ==> x.ring[i] < x.ring[k];
      assert i > k ==> End(x.size, x.ring[k]) <= x.ring[i];
    }
  }

  ghost predicate NotInRing(ring: seq<int>, a: int) {
    forall i :: 0 <= i < |ring| ==> ring[i] != a
  }

  lemma ShrunkAt(size: Words, ring: seq<int>, k: int, n: int, i: int)
    requires Ordered(size, ring) && 1 <= k < |ring| && 1 <= n < size[ring[k]]
    requires NotInRing(ring, Tail(size, ring, k, n)) && 0 <= i < |ring|
    ensures ring[i] in Shrunk(size, ring, k, n)
    ensures i != k ==> Shrunk(size, ring, k, n)[ring[i]] == size[ring[i]]
    ensures i == k ==> Shrunk(size, ring, k, n)[ring[i]] == size[ring[i]] - n
  {
    assert i < k ==> ring[i] < ring[k];
    assert i > k ==> ring[k] < ring[i];
  }

  lemma OrderedShrunk(size: Words, ring: seq<int>, k: int, n: int)
    requires Ordered(size, ring) && 1 <= k < |ring| && 1 <= n < size[ring[k]]
    requires NotInRing(ring, Tail(size, ring, k, n))
    ensures Ordered(Shrunk(size, ring, k, n), ring)
    ensures forall i :: 0 <= i < |ring| ==> End(Shrunk(size, ring, k, n), ring[i]) <= End(size, ring[i])
  {
    forall i | 0 <= i < |ring|
      ensures ring[i] in Shrunk(size, ring, k, n)
      ensures (if i == 0 then 0 else 1) <= Shrunk(size, ring, k, n)[ring[i]] <= size[ring[i]]
    {
      ShrunkAt(size, ring, k, n, i);
    }
  }

  lemma FreeSpaceShrunk(size: Words, ring: seq<int>, k: int, n: int, a: int)
    requires Ordered(size, ring) && 1 <= k < |ring| && 1 <= n < size[ring[k]]
    requires NotInRing(ring, Tail(size, ring, k, n)) && Sized(Shrunk(size, ring, k, n), ring)
    ensures InFree(size, ring, a)
            <==> InFree(Shrunk(size, ring, k, n), ring, a) || Tail(size, ring, k, n) <= a < End(size, ring[k])
  {
    var size' := Shrunk(size, ring, k, n);
    if InFree(size, ring, a) {
      var i :| 1 <= i < |ring| && ring[i] <= a < End(size, ring[i]);
      ShrunkAt(size, ring, k, n, i);
      assert ring[i] <= a < End(size', ring[i]) || a >= Tail(size, ring, k, n);
    }
    if InFree(size', ring, a) {
      var i :| 1 <= i < |ring| && ring[i] <= a < End(size', ring[i]);
      ShrunkAt(size, ring, k, n, i);
      assert ring[i] <= a < End(size, ring[i]);
    }
    if Tail(size, ring, k, n) <= a < End(size, ring[k]) {
      assert ring[k] <= a;
    }
  }

  lemma TilesShrunk(size: Words, ring: seq<int>, k: int, n: int, live: Words, obtained: iset<int>)
    requires Ordered(size, ring) && 1 <= k < |ring| && 1 <= n < size[ring[k]]
    requires NotInRing(ring, Tail(size, ring, k, n)) && Tail(size, ring, k, n) !in live
    requires Sized(Shrunk(size, ring, k, n), ring) && Tiles(size, ring, live, obtained)
    ensures Tiles(Shrunk(size, ring, k, n), ring, live[Tail(size, ring, k, n) := n], obtained)
  {
    forall a
      ensures a in obtained
              <==> InFree(Shrunk(size, ring, k, n), ring, a) || InLive(live[Tail(size, ring, k, n) := n], a)
    {
      LiveWith(live, Tail(size, ring, k, n), n, a);
      FreeSpaceShrunk(size, ring, k, n, a);
    }
  }

  lemma ApartShrunkFree(size: Words, ring: seq<int>, k: int, n: int, live: Words, b: int, i: int)
    requires Ordered(size, ring) && 1 <= k < |ring| && 1 <= n < size[ring[k]] && 0 <= i < |ring|
    requires Ordered(Shrunk(size, ring, k, n), ring)
    requires End(Shrunk(size, ring, k, n), ring[i]) <= End(size, ring[i])
    requires b in live && Clear(size, ring[i], live, b) && b != Tail(size, ring, k, n)
    ensures Clear(Shrunk(size, ring, k, n), ring[i], live[Tail(size, ring, k, n) := n], b)
  {
  }

  lemma ApartShrunkTail(size: Words, ring: seq<int>, k: int, n: int, i: int)
    requires Ordered(size, ring) && 1 <= k < |ring| && 1 <= n < size[ring[k]] && 0 <= i < |ring|
    requires NotInRing(ring, Tail(size, ring, k, n))
    ensures ring[i] in Shrunk(size, ring, k, n)
    ensures End(size, ring[k]) <= ring[i] || End(Shrunk(size, ring, k, n), ring[i]) <= Tail(size, ring, k, n)
  {
    ShrunkAt(size, ring, k, n, i);
    assert i < k ==> End(size, ring[i]) <= ring[k];
    assert k < i ==> End(size, ring[k]) <= ring[i];
  }

  lemma ApartShrunk(size: Words, ring: seq<int>, k: int, n: int, live: Words)
    requires Ordered(size, ring) && 1 <= k < |ring| && 1 <= n < size[ring[k]]
    requires NotInRing(ring, Tail(size, ring, k, n)) && Tail(size, ring, k, n) !in live
    requires Apart(size, ring, live) && forall b :: b in live ==> live[b] >= 1
    requires Ordered(Shrunk(size, ring, k, n), ring)
    ensures Apart(Shrunk(size, ring, k, n), ring, live[Tail(size, ring, k, n) := n])
  {
    var size', tail := Shrunk(size, ring, k, n), Tail(size, ring, k, n);
    var live' := live[tail := n];
    OrderedShrunk(size, ring, k, n);
    forall b, i | b in live' && 0 <= i < |ring|
      ensures Clear(size', ring[i], live', b)
    {
      if b == tail {
        ApartShrunkTail(size, ring, k, n, i);
      } else {
        ApartShrunkFree(size, ring, k, n, live, b, i);
      }
    }
    forall b | b in live
      ensures End(live, b) <= tail || tail + HDR * n <= b
    {
      assert Clear(size, ring[k], live, b);
    }
  }

  lemma SplitKeeps(x: Arena, base: int, k: int, n: int)
    requires Sound(x, base) && 1 <= k < |x.ring| && 1 <= n < x.size[x.ring[k]]
    ensures Sound(Split(x, k, n), base)
  {
    hide Linked, Apart, Tiles, NotInRing;
    InsideIsFresh(x, base, k, Tail(x.size, x.ring, k, n));
    NotLive(x, base, k);
    OrderedShrunk(x.size, x.ring, k, n);
    ShrunkAt(x.size, x.ring, k, n, 0);
    ApartShrunk(x.size, x.ring, k, n, x.live);
    TilesShrunk(x.size, x.ring, k, n, x.live, x.obtained);
  }

  // ----- morecore: memory above everything obtained so far

  /** A header written at an address that starts no free block leaves the free blocks alone. */
  lemma SizeElsewhere(size: Words, ring: seq<int>, p: int, n: int)
    requires Ordered(size, ring) && NotInRing(ring, p)
    ensures Ordered(size[p := n], ring)
    ensures forall i :: 0 <= i < |ring| ==> size[p := n][ring[i]] == size[ring[i]]
  {
  }

  lemma ExtendTiles(size: Words, ring: seq<int>, live: Words, obtained: iset<int>, p: int, n: int)
    requires Ordered(size, ring) && Tiles(size, ring, live, obtained) && p !in live && NotInRing(ring, p)
    requires Ordered(size[p := n], ring)
    ensures Tiles(size[p := n], ring, live[p := n], obtained + Span(p, n))
  {
    SizeElsewhere(size, ring, p, n);
    forall a
      ensures a in obtained + Span(p, n) <==> InFree(size[p := n], ring, a) || InLive(live[p := n], a)
    {
      LiveWith(live, p, n, a);
      assert a in Span(p, n) <==> InSpan(a, p, n);
      assert InFree(size, ring, a) <==> InFree(size[p := n], ring, a);
    }
  }

  lemma ExtendApart(size: Words, ring: seq<int>, live: Words, p: int, n: int)
    requires Ordered(size, ring) && Apart(size, ring, live) && NotInRing(ring, p)
    requires forall i :: 0 <= i < |ring| ==> End(size, ring[i]) <= p
    requires forall b :: b in live ==> live[b] >= 1 && End(live, b) <= p
    requires Ordered(size[p := n], ring)
    ensures Apart(size[p := n], ring, live[p := n])
  {
    SizeElsewhere(size, ring, p, n);
    var live' := live[p := n];
    forall b, i | b in live' && 0 <= i < |ring|
      ensures Clear(size[p := n], ring[i], live', b)
    {
      if b != p {
        assert Clear(size, ring[i], live, b);
      }
    }
  }

  lemma ExtendKeeps(x: Arena, base: int, p: int, n: int)
    requires Sound(x, base) && p >= x.brk && p > base && n >= 1
    ensures Sound(Extend(x, p, n), base)
  {
    assert NotInRing(x.ring, p);
    SizeElsewhere(x.size, x.ring, p, n);
    ExtendApart(x.size, x.ring, x.live, p, n);
    ExtendTiles(x.size, x.ring, x.live, x.obtained, p, n);
  }

  // ----- no two free blocks touch

  /** Every block of the ring outside positions lo..hi is followed by a gap. */
  ghost predicate GapsExcept(size: Words, ring: seq<int>, lo: int, hi: int)
    requires Sized(size, ring)
  {
    forall i :: 0 <= i < |ring| && !(lo <= i <= hi) ==> Gap(size, ring, i)
  }

  lemma GapsRelease(size: Words, ring: seq<int>, t: int, bp: int)
    requires Ordered(size, ring) && Coalesced(size, ring) && 0 <= t < |ring|
    requires Sized(size, Insert(ring, t, bp))
    ensures GapsExcept(size, Insert(ring, t, bp), t, t + 1)
  {
    var r := Insert(ring, t, bp);
    forall i | 0 <= i < |r| && !(t <= i <= t + 1)
      ensures Gap(size, r, i)
    {
      assert Gap(size, ring, if i < t then i else i - 1);
    }
  }

  lemma GapsMerge(size: Words, ring: seq<int>, lo: int, k: int)
    requires Ordered(size, ring) && Touching(size, ring, k) && lo <= k && GapsExcept(size, ring, lo, k)
    requires Sized(Grown(size, ring, k), Without(ring, k))
    ensures GapsExcept(Grown(size, ring, k), Without(ring, k), lo, k - 1)
  {
    var size', r := Grown(size, ring, k), Without(ring, k);
    forall i | 0 <= i < |r| && !(lo <= i <= k - 1)
      ensures Gap(size', r, i)
    {
      if i < k {
        GrownAt(size, ring, k, i);
        assert Gap(size, ring, i);
      } else {
        if i > k {
          GrownAt(size, ring, k, i + 1);
        }
        assert Gap(size, ring, i + 1);
      }
    }
  }

  lemma GapsClose(size: Words, ring: seq<int>, lo: int, hi: int, base: int)
    requires Ordered(size, ring) && |ring| >= 1 && ring[0] == base && size[base] == 0
    requires 0 <= hi < |ring| && GapsExcept(size, ring, lo, hi) && !Touching(size, ring, hi)
    ensures GapsExcept(size, ring, lo, hi - 1)
  {
  }

  // ----- the two halves of free

  /** The block at position k merges with the one after it where they touch. */
  ghost function Joined(y: Arena, k: int): Arena {
    if Linked(y.ptr, y.ring) && Sized(y.size, y.ring) && Touching(y.size, y.ring, k) then Merge(y, k) else y
  }

  /** Block bp is released after position t and merges with its neighbours. */
  ghost function Freed(x: Arena, t: int, bp: int): (z: Arena)
    requires 0 <= t < |x.ring| && x.ring[t] in x.ptr
  {
    Joined(Joined(Release(x, t, bp), t + 1), t)
  }

  lemma JoinKeeps(y: Arena, base: int, lo: int, k: int)
    requires Sound(y, base) && 0 <= lo <= k < |y.ring| && GapsExcept(y.size, y.ring, lo, k)
    ensures Sound(Joined(y, k), base)
    ensures GapsExcept(Joined(y, k).size, Joined(y, k).ring, lo, k - 1)
    ensures |Joined(y, k).ring| >= k + 1 && forall i :: 0 <= i <= k ==> Joined(y, k).ring[i] == y.ring[i]
  {
    if Touching(y.size, y.ring, k) {
      MergeKeeps(y, base, k);
      GapsMerge(y.size, y.ring, lo, k);
    } else {
      GapsClose(y.size, y.ring, lo, k, base);
    }
  }

  lemma FreedKeeps(x: Arena, base: int, t: int, bp: int)
    requires Sound(x, base) && Coalesced(x.size, x.ring) && bp in x.live && Between(x.ring, t, bp)
    ensures Sound(Freed(x, t, bp), base)
    ensures Coalesced(Freed(x, t, bp).size, Freed(x, t, bp).ring)
    ensures |Freed(x, t, bp).ring| >= t + 1 && Freed(x, t, bp).ring[t] == x.ring[t]
  {
    ReleaseKeeps(x, base, t, bp);
    var y := Release(x, t, bp);
    assert GapsExcept(y.size, y.ring, t, t + 1) by { GapsRelease(x.size, x.ring, t, bp); }
    FreedKeepsJoins(y, base, t);
    assert y.ring[t] == x.ring[t];
  }

  lemma FreedKeepsJoins(y: Arena, base: int, t: int)
    requires Sound(y, base) && 0 <= t < |y.ring| - 1 && GapsExcept(y.size, y.ring, t, t + 1)
    ensures var w := Joined(Joined(y, t + 1), t);
            Sound(w, base) && Coalesced(w.size, w.ring) && |w.ring| >= t + 1 && w.ring[t] == y.ring[t]
  {
    JoinKeeps(y, base, t, t + 1);
    JoinKeeps(Joined(y, t + 1), base, t, t);
  }

  // ----- the pointer updates of free compute Freed

  /** The ptr and size fields after the first if of free: bp takes over what follows p. */
  ghost function LinkRight(x: Arena, p: int, bp: int): (Words, Words)
    requires p in x.ptr && x.ptr[p] in x.ptr && x.ptr[p] in x.size && bp in x.size
  {
    if End(x.size, bp) == x.ptr[p]
    then (x.ptr[bp := x.ptr[x.ptr[p]]], x.size[bp := x.size[bp] + x.size[x.ptr[p]]])
    else (x.ptr[bp := x.ptr[p]], x.size)
  }

  lemma RelinkSame(ptr: Words, p: int, bp: int, nxt: int)
    requires p in ptr && nxt in ptr && p != bp && nxt != bp && nxt != p
    ensures var y := ptr[bp := ptr[p]][p := bp];
            y[bp := y[nxt]] == ptr[bp := ptr[nxt]][p := bp]
  {
  }

  lemma LinkRightTouching(x: Arena, t: int, bp: int)
    requires Linked(x.ptr, x.ring) && Sized(x.size, x.ring)
    requires 0 <= t < |x.ring| - 1 && x.ring[t] < x.ring[t + 1]
    requires bp in x.size && Between(x.ring, t, bp) && NotInRing(x.ring, bp)
    requires End(x.size, bp) == x.ring[t + 1]
    requires Linked(Release(x, t, bp).ptr, Release(x, t, bp).ring) && Sized(x.size, Release(x, t, bp).ring)
    ensures var z := Joined(Release(x, t, bp), t + 1);
            var nxt := x.ring[t + 1];
            z.ptr == x.ptr[bp := x.ptr[nxt]][x.ring[t] := bp] && z.size == x.size[bp := x.size[bp] + x.size[nxt]]
  {
    var y, nxt := Release(x, t, bp), x.ring[t + 1];
    assert y.ring[t + 1] == bp && y.ring[t + 2] == nxt;
    assert Touching(y.size, y.ring, t + 1);
    assert Merge(y, t + 1).ptr == y.ptr[bp := y.ptr[nxt]];
    assert x.ring[t] < nxt;
    RelinkSame(x.ptr, x.ring[t], bp, nxt);
  }

  lemma LinkRightNotTouching(x: Arena, t: int, bp: int)
    requires Sized(x.size, x.ring) && 0 <= t < |x.ring| && x.ring[t] in x.ptr && bp in x.size
    requires t + 1 < |x.ring| ==> End(x.size, bp) != x.ring[t + 1]
    ensures Joined(Release(x, t, bp), t + 1) == Release(x, t, bp)
  {
    var y := Release(x, t, bp);
    assert y.ring[t + 1] == bp;
    assert t + 2 < |y.ring| ==> y.ring[t + 2] == x.ring[t + 1];
  }

  lemma LinkRightIsJoined(x: Arena, t: int, bp: int)
    requires Linked(x.ptr, x.ring) && Ordered(x.size, x.ring)
    requires bp in x.size && x.size[bp] >= 1 && Between(x.ring, t, bp) && NotInRing(x.ring, bp) && x.ring[0] < bp
    requires Linked(Release(x, t, bp).ptr, Release(x, t, bp).ring) && Sized(x.size, Release(x, t, bp).ring)
    ensures x.ptr[x.ring[t]] in x.ptr && x.ptr[x.ring[t]] in x.size
    ensures var z := Joined(Release(x, t, bp), t + 1);
            var (ptr', size') := LinkRight(x, x.ring[t], bp);
            z.ptr == ptr'[x.ring[t] := bp] && z.size == size'
  {
    hide Linked, Ordered, Sized, Joined, NotInRing;
    RingNext(x, t, bp);
    if t + 1 < |x.ring| && End(x.size, bp) == x.ring[t + 1] {
      LinkRightTouching(x, t, bp);
    } else {
      LinkRightNotTouching(x, t, bp);
    }
  }

  lemma RingNext(x: Arena, t: int, bp: int)
    requires Linked(x.ptr, x.ring) && Ordered(x.size, x.ring) && Between(x.ring, t, bp) && bp in x.size
             && x.size[bp] >= 1 && x.ring[0] < bp
    ensures Sized(x.size, x.ring) && x.ring[t] in x.ptr && (t + 1 < |x.ring| ==> x.ring[t] < x.ring[t + 1])
    ensures var nxt := x.ptr[x.ring[t]];
            nxt in x.ptr && nxt in x.size
              && (if t + 1 < |x.ring| then nxt == x.ring[t + 1] else nxt == x.ring[0] && End(x.size, bp) != nxt)
  {
    assert t + 1 < |x.ring| ==> x.ptr[x.ring[t]] == x.ring[t + 1];
  }

  lemma LinkLeftIsJoined(z: Arena, t: int, p: int, bp: int)
    requires Linked(z.ptr, z.ring) && Sized(z.size, z.ring) && z.size[z.ring[0]] == 0
    requires 0 <= t < |z.ring| - 1 && z.ring[t] == p < z.ring[t + 1] == bp
    ensures var w := Joined(z, t);
            && (End(z.size, p) == bp ==>
                  w.ptr == z.ptr[p := z.ptr[bp]] && w.size == z.size[p := z.size[p] + z.size[bp]])
            && (End(z.size, p) != bp ==> w.ptr == z.ptr && w.size == z.size)
  {
  }

  // ----- finding the place of a block

  lemma {:induction false} SomeBetween(ring: seq<int>, size: Words, bp: int, n: int) returns (t: int)
    requires Ordered(size, ring) && bp !in ring && 1 <= n <= |ring| && ring[0] < bp
    requires n < |ring| ==> bp < ring[n]
    ensures Between(ring, t, bp)
  {
    if ring[n - 1] < bp {
      t := n - 1;
    } else {
      t := SomeBetween(ring, size, bp, n - 1);
    }
  }

  /** Steps along the ring of n blocks from position i to position t. */
  ghost function Dist(i: int, t: int, n: int): int {
    if i <= t then t - i else n - i + t
  }

  ghost function Succ(i: int, n: int): int {
    if i + 1 == n then 0 else i + 1
  }

  lemma Follow(ptr: Words, ring: seq<int>, i: int)
    requires Linked(ptr, ring) && 0 <= i < |ring|
    ensures ring[i] in ptr && 0 <= Succ(i, |ring|) < |ring| && ptr[ring[i]] == ring[Succ(i, |ring|)]
  {
  }

  // ----- a block big enough

  /** Some free block contains all of a..e. */
  ghost predicate Covers(x: Arena, a: int, e: int)
    requires Sized(x.size, x.ring)
  {
    exists g :: 1 <= g < |x.ring| && x.ring[g] <= a && e <= End(x.size, x.ring[g])
  }

  lemma MergeCovers(size: Words, ring: seq<int>, k: int, a: int, e: int, g: int)
    requires Ordered(size, ring) && Touching(size, ring, k)
    requires 1 <= g < |ring| && ring[g] <= a && e <= End(size, ring[g])
    ensures var h := if g <= k then g else g - 1;
            var r, size' := Without(ring, k), Grown(size, ring, k);
            r[h] in size' && r[h] <= a && e <= End(size', r[h])
  {
    var r, size' := Without(ring, k), Grown(size, ring, k);
    if g == k || g == k + 1 {
      assert r[k] == ring[k] && End(size', ring[k]) == End(size, ring[k + 1]);
    } else {
      GrownAt(size, ring, k, g);
    }
  }

  lemma JoinCovers(y: Arena, k: int, a: int, e: int)
    requires Linked(y.ptr, y.ring) && Ordered(y.size, y.ring) && 0 <= k < |y.ring|
    requires Covers(y, a, e) && Sized(Joined(y, k).size, Joined(y, k).ring)
    ensures Covers(Joined(y, k), a, e)
  {
    if Touching(y.size, y.ring, k) {
      var g :| 1 <= g < |y.ring| && y.ring[g] <= a && e <= End(y.size, y.ring[g]);
      MergeCovers(y.size, y.ring, k, a, e, g);
      var h := if g <= k then g else g - 1;
      assert Merge(y, k).ring[h] <= a;
    }
  }

  /** Freed memory is found again inside one free block. */
  lemma FreedCovers(x: Arena, base: int, t: int, bp: int)
    requires Sound(x, base) && Coalesced(x.size, x.ring) && bp in x.live && Between(x.ring, t, bp)
    requires Sized(Freed(x, t, bp).size, Freed(x, t, bp).ring)
    ensures Covers(Freed(x, t, bp), bp, End(x.live, bp))
  {
    var y := Release(x, t, bp);
    var e := End(x.live, bp);
    ReleaseKeeps(x, base, t, bp);
    assert GapsExcept(y.size, y.ring, t, t + 1) by { GapsRelease(x.size, x.ring, t, bp); }
    assert Covers(y, bp, e) by { assert y.ring[t + 1] == bp && End(y.size, bp) == e; }
    JoinedCovers(y, base, t, bp, e);
  }

  lemma JoinedCovers(y: Arena, base: int, t: int, a: int, e: int)
    requires Sound(y, base) && 0 <= t < |y.ring| - 1 && GapsExcept(y.size, y.ring, t, t + 1) && Covers(y, a, e)
    requires var w := Joined(Joined(y, t + 1), t); Sized(w.size, w.ring)
    ensures Covers(Joined(Joined(y, t + 1), t), a, e)
  {
    JoinKeeps(y, base, t, t + 1);
    JoinCovers(y, t + 1, a, e);
    JoinCovers(Joined(y, t + 1), t, a, e);
  }

  // ----- free as a whole

  ghost predicate Good(x: Arena, base: int) {
    Sound(x, base) && Coalesced(x.size, x.ring)
  }

  /** The header words after the two ifs of free, for block bp found to follow p. */
  ghost function FreeWords(ptr: Words, size: Words, p: int, bp: int): (Words, Words)
    requires p in ptr && p in size && bp in size && ptr[p] in ptr && ptr[p] in size && p != bp
  {
    var nxt := ptr[p];
    var (ptr1, size1) := if bp + HDR * size[bp] == nxt
                         then (ptr[bp := ptr[nxt]], size[bp := size[bp] + size[nxt]])
                         else (ptr[bp := nxt], size);
    if p + HDR * size1[p] == bp then (ptr1[p := ptr1[bp]], size1[p := size1[p] + size1[bp]])
    else (ptr1[p := bp], size1)
  }

  lemma FreeWordsIsFreed(x: Arena, base: int, t: int, bp: int)
    requires Good(x, base) && bp in x.live && Between(x.ring, t, bp)
    ensures var p := x.ring[t];
            && p in x.ptr && p in x.size && bp in x.size && x.ptr[p] in x.ptr && x.ptr[p] in x.size && p != bp
            && FreeWords(x.ptr, x.size, p, bp) == (Freed(x, t, bp).ptr, Freed(x, t, bp).size)
  {
    var p := x.ring[t];
    var y := Release(x, t, bp);
    var z := Joined(y, t + 1);
    ReleaseKeeps(x, base, t, bp);
    assert NotInRing(x.ring, bp);
    LinkRightIsJoined(x, t, bp);
    assert GapsExcept(y.size, y.ring, t, t + 1) by { GapsRelease(x.size, x.ring, t, bp); }
    JoinKeeps(y, base, t, t + 1);
    FreeWordsSecondHalf(x, z, t, p, bp);
  }

  lemma FreeWordsSecondHalf(x: Arena, z: Arena, t: int, p: int, bp: int)
    requires p in x.ptr && p in x.size && bp in x.size && x.ptr[p] in x.ptr && x.ptr[p] in x.size
    requires z.ptr == LinkRight(x, p, bp).0[p := bp] && z.size == LinkRight(x, p, bp).1
    requires Linked(z.ptr, z.ring) && Sized(z.size, z.ring) && z.size[z.ring[0]] == 0
    requires 0 <= t < |z.ring| - 1 && z.ring[t] == p < z.ring[t + 1] == bp
    ensures FreeWords(x.ptr, x.size, p, bp) == (Joined(z, t).ptr, Joined(z, t).size)
  {
    LinkLeftIsJoined(z, t, p, bp);
    var ptr1 := LinkRight(x, p, bp).0;
    assert ptr1[p := bp][p := ptr1[bp]] == ptr1[p := ptr1[bp]];
  }

  /** Everything free promises about the block it releases. */
  lemma FreeCorrect(x: Arena, base: int, t: int, bp: int)
    requires Good(x, base) && bp in x.live && Between(x.ring, t, bp)
    ensures var p, z := x.ring[t], Freed(x, t, bp);
            && p in x.ptr && p in x.size && bp in x.size && x.ptr[p] in x.ptr && x.ptr[p] in x.size && p != bp
            && FreeWords(x.ptr, x.size, p, bp) == (z.ptr, z.size)
            && Good(z, base)
            && p in z.ring
            && z.live == x.live - {bp} && z.obtained == x.obtained && z.brk == x.brk
            && Covers(z, bp, End(x.live, bp))
  {
    GoodParts(x, base, bp);
    hide Sound, Coalesced, Covers;
    FreeWordsIsFreed(x, base, t, bp);
    FreedKeeps(x, base, t, bp);
    FreedParts(x, t, bp);
    GoodSized(Freed(x, t, bp), base);
    FreedCovers(x, base, t, bp);
  }

  lemma FreedParts(x: Arena, t: int, bp: int)
    requires 0 <= t < |x.ring| && x.ring[t] in x.ptr
    ensures var z := Freed(x, t, bp);
            z.live == x.live - {bp} && z.obtained == x.obtained && z.brk == x.brk
  {
  }

  lemma GoodSized(x: Arena, base: int)
    requires Good(x, base)
    ensures Sized(x.size, x.ring)
  {
  }

  lemma GoodParts(x: Arena, base: int, bp: int)
    requires Good(x, base) && bp in x.live
    ensures Linked(x.ptr, x.ring) && Ordered(x.size, x.ring) && Sized(x.size, x.ring)
    ensures bp !in x.ring && |x.ring| >= 1 && x.ring[0] < bp
    ensures forall i :: 0 <= i < |x.ring| ==> x.ring[i] >= base
  {
  }

  // ----- malloc as a whole

  lemma GapsTake(size: Words, ring: seq<int>, k: int)
    requires Ordered(size, ring) && Coalesced(size, ring) && 1 <= k < |ring|
    requires Sized(size, Without(ring, k - 1))
    ensures Coalesced(size, Without(ring, k - 1))
  {
    var r := Without(ring, k - 1);
    forall i | 0 <= i < |r|
      ensures Gap(size, r, i)
    {
      if i < k - 1 {
        assert Gap(size, ring, i);
      } else if i == k - 1 {
        assert Gap(size, ring, k - 1);
        assert k + 1 < |ring| ==> ring[k] < ring[k + 1];
      } else {
        assert Gap(size, ring, i + 1);
      }
    }
  }

  lemma GapsSplit(size: Words, ring: seq<int>, k: int, n: int)
    requires Ordered(size, ring) && Coalesced(size, ring) && 1 <= k < |ring| && 1 <= n < size[ring[k]]
    requires NotInRing(ring, Tail(size, ring, k, n)) && Sized(Shrunk(size, ring, k, n), ring)
    ensures Coalesced(Shrunk(size, ring, k, n), ring)
  {
    forall i | 0 <= i < |ring|
      ensures Gap(Shrunk(size, ring, k, n), ring, i)
    {
      ShrunkAt(size, ring, k, n, i);
      assert Gap(size, ring, i);
    }
  }

  /** What malloc promises when the free block at position k has exactly n headers. */
  lemma TakeCorrect(x: Arena, base: int, k: int, n: int)
    requires Good(x, base) && 1 <= k < |x.ring| && x.ring[k] in x.size && x.size[x.ring[k]] == n
    ensures Linked(x.ptr, x.ring) && Sized(x.size, x.ring)
    ensures Good(Take(x, k), base) && x.ring[k - 1] in Take(x, k).ring && x.ring[k] !in x.live
    ensures base <= x.ring[k - 1] < x.ring[k]
  {
    TakeKeeps(x, base, k);
    NotLive(x, base, k);
    GapsTake(x.size, x.ring, k);
    assert Take(x, k).ring[k - 1] == x.ring[k - 1];
  }

  /** What malloc promises when it has more. */
  lemma SplitCorrect(x: Arena, base: int, k: int, n: int)
    requires Good(x, base) && 1 <= k < |x.ring| && x.ring[k] in x.size && 1 <= n < x.size[x.ring[k]]
    ensures Sized(x.size, x.ring)
    ensures Good(Split(x, k, n), base) && Tail(x.size, x.ring, k, n) !in x.live
    ensures base <= x.ring[k - 1] < x.ring[k]
  {
    SplitKeeps(x, base, k, n);
    InsideIsFresh(x, base, k, Tail(x.size, x.ring, k, n));
    OrderedShrunk(x.size, x.ring, k, n);
    GapsSplit(x.size, x.ring, k, n);
  }

  lemma ExtendCorrect(x: Arena, base: int, p: int, n: int)
    requires Good(x, base) && p >= x.brk && p > base && n >= 1
    ensures Good(Extend(x, p, n), base) && p !in x.live
  {
    ExtendKeeps(x, base, p, n);
    var y := Extend(x, p, n);
    forall i | 0 <= i < |x.ring|
      ensures Gap(y.size, y.ring, i)
    {
      assert Gap(x.size, x.ring, i);
    }
  }

  ghost predicate HasBlock(x: Arena, n: int, g: int) {
    1 <= g < |x.ring| && x.ring[g] in x.size && x.size[x.ring[g]] >= n
  }

  lemma CoversBig(x: Arena, a: int, n: int, m: int)
    requires Sized(x.size, x.ring) && Covers(x, a, a + HDR * n) && m <= n
    ensures exists g :: HasBlock(x, m, g)
  {
    var g :| 1 <= g < |x.ring| && x.ring[g] <= a && a + HDR * n <= End(x.size, x.ring[g]);
    assert HasBlock(x, m, g);
  }

  /** Facts about position i of the ring that the search of malloc uses. */
  lemma GoodAt(x: Arena, base: int, i: int)
    requires Good(x, base) && 0 <= i < |x.ring|
    ensures |x.ring| >= 1 && x.ring[0] == base && base in x.size && x.size[base] == 0
    ensures x.ring[i] in x.ptr && x.ring[i] in x.size && x.ring[i] >= base
    ensures 0 <= Succ(i, |x.ring|) < |x.ring| && x.ptr[x.ring[i]] == x.ring[Succ(i, |x.ring|)]
    ensures OnlyAt(x.ring, i)
  {
    Follow(x.ptr, x.ring, i);
  }

  /** A block in use lies in the memory obtained. */
  lemma LiveObtained(x: Arena, base: int, b: int)
    requires Good(x, base) && b in x.live
    ensures Span(b, x.live[b]) <= x.obtained && base < b
  {
    forall a | a in Span(b, x.live[b]) ensures a in x.obtained {
      assert InLive(x.live, a);
    }
  }
}
