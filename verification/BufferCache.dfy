/**
 * kernel/bio.c: the cache of disk blocks, a ring of buffers through prev and next with the most recently
 * used first.  What happens under the cache's lock is one method here; waiting for a buffer's sleep lock
 * happens between methods.
 */
module BufferCache {

  type Data = seq<int>
  type Key = (int, int)          // device and block number

  const UINT: int := 0x1_0000_0000

  datatype Buf = Buf(valid: bool, dev: int, blockno: int, refcnt: int, held: bool, data: Data)

  function KeyOf(b: Buf): Key { (b.dev, b.blockno) }

  // ----- the ring

  /** The ring in the order of the next pointers, with the list head h at both ends. */
  ghost function Closed(ring: seq<int>, h: int): seq<int> { [h] + ring + [h] }

  ghost predicate Distinct(s: seq<int>) {
    forall i, j :: 0 <= i < j < |s| ==> s[i] != s[j]
  }

  ghost predicate Nodes(ring: seq<int>, h: int) {
    Distinct(ring) && forall i :: 0 <= i < |ring| ==> 0 <= ring[i] < h
  }

  ghost predicate Follows(next: seq<int>, prev: seq<int>, c: seq<int>, h: int) {
    && |next| == h + 1 && |prev| == h + 1
    && (forall i, j :: 0 <= i && j == i + 1 && j < |c| && 0 <= c[i] <= h && 0 <= c[j] <= h ==>
          next[c[i]] == c[j] && prev[c[j]] == c[i])
  }

  /** next and prev form one ring through h and the buffers in ring. */
  ghost predicate Linked(next: seq<int>, prev: seq<int>, ring: seq<int>, h: int) {
    0 <= h && Nodes(ring, h) && Follows(next, prev, Closed(ring, h), h)
  }

  ghost function Without(ring: seq<int>, k: int): seq<int>
    requires 0 <= k < |ring|
  {
    ring[..k] + ring[k + 1..]
  }

  lemma WithoutNodes(ring: seq<int>, k: int, h: int)
    requires Nodes(ring, h) && 0 <= k < |ring|
    ensures Nodes(Without(ring, k), h) && ring[k] !in Without(ring, k)
    ensures forall b :: b in ring <==> b in Without(ring, k) || b == ring[k]
  {
    var r := Without(ring, k);
    forall b ensures b in ring <==> b in r || b == ring[k] {
      if b in ring {
        var i :| 0 <= i < |ring| && ring[i] == b;
        if i < k {
          assert r[i] == b;
        } else if i > k {
          assert r[i - 1] == b;
        }
      }
    }
  }

  /** Taking ring[k] out. */
  lemma Unlink(next: seq<int>, prev: seq<int>, ring: seq<int>, k: int, h: int)
    requires Linked(next, prev, ring, h) && 0 <= k < |ring|
    ensures var b := ring[k]; 0 <= next[b] <= h && 0 <= prev[b] <= h
    ensures var b := ring[k]; Linked(next[prev[b] := next[b]], prev[next[b] := prev[b]], Without(ring, k), h)
  {
    var b := ring[k];
    var c, c' := Closed(ring, h), Closed(Without(ring, k), h);
    assert c[k + 1] == b;
    assert prev[b] == c[k] && next[b] == c[k + 2];
    WithoutNodes(ring, k, h);
    var n', p' := next[prev[b] := next[b]], prev[next[b] := prev[b]];
    forall i, j | 0 <= i && j == i + 1 && j < |c'| && 0 <= c'[i] <= h && 0 <= c'[j] <= h
      ensures n'[c'[i]] == c'[j] && p'[c'[j]] == c'[i]
    {
      if i < k {
        assert c'[i] == c[i] && c'[j] == c[j];
      } else if i == k {
        assert c'[i] == c[k] && c'[j] == c[k + 2];
      } else {
        assert c'[i] == c[i + 1] && c'[j] == c[j + 1];
      }
    }
  }

  /** Putting b in front. */
  lemma PushFront(next: seq<int>, prev: seq<int>, ring: seq<int>, b: int, h: int)
    requires Linked(next, prev, ring, h) && 0 <= b < h && b !in ring
    ensures 0 <= next[h] <= h
    ensures var n1, p1 := next[b := next[h]], prev[b := h];
            Linked(n1[h := b], p1[next[h] := b], [b] + ring, h)
  {
    var c, c' := Closed(ring, h), Closed([b] + ring, h);
    assert c[0] == h && c'[0] == h && c'[1] == b;
    assert next[h] == c[1];
    var n', p' := next[b := next[h]][h := b], prev[b := h][next[h] := b];
    forall i, j | 0 <= i && j == i + 1 && j < |c'| && 0 <= c'[i] <= h && 0 <= c'[j] <= h
      ensures n'[c'[i]] == c'[j] && p'[c'[j]] == c'[i]
    {
      if i >= 1 {
        assert c'[j] == c[j - 1];
        if i >= 2 {
          assert c'[i] == c[i - 1];
        }
      }
    }
  }

  // ----- the buffers

  /** refs counts the references that clients hold. */
  ghost predicate Counted(bufs: seq<Buf>, refs: seq<nat>) {
    && |refs| == |bufs|
    && (forall i :: 0 <= i < |bufs| ==> bufs[i].refcnt == refs[i] < UINT && (bufs[i].held ==> refs[i] > 0))
  }

  /** At most one buffer per block; device 0 is that of buffers never used. */
  ghost predicate Unique(bufs: seq<Buf>) {
    forall i, j :: 0 <= i < |bufs| && 0 <= j < |bufs| && bufs[i].dev != 0 && KeyOf(bufs[i]) == KeyOf(bufs[j]) ==> i == j
  }

  /** view is what each block holds for the users of the cache: the buffer's data where there is a valid one,
      else what is on disk.  A buffer without references agrees with the disk. */
  ghost predicate Coherent(bufs: seq<Buf>, view: map<Key, Data>, disk: map<Key, Data>) {
    && view.Keys == disk.Keys
    && (forall i :: 0 <= i < |bufs| ==> InView(bufs[i], view, disk))
    && (forall k :: k in disk && (forall i :: 0 <= i < |bufs| ==> KeyOf(bufs[i]) != k || !bufs[i].valid) ==>
          disk[k] == view[k])
  }

  ghost predicate InView(b: Buf, view: map<Key, Data>, disk: map<Key, Data>) {
    && (b.dev == 0 ==> !b.valid)
    && (b.dev != 0 ==> KeyOf(b) in view && KeyOf(b) in disk)
    && (b.valid ==> view[KeyOf(b)] == b.data)
    && (b.valid && b.refcnt == 0 ==> disk[KeyOf(b)] == b.data)
  }

  /** Buffers in use stay what they are. */
  ghost predicate UsersKept(bufs: seq<Buf>, bufs': seq<Buf>, refs: seq<nat>)
    requires |bufs'| == |bufs| == |refs|
  {
    forall i :: 0 <= i < |bufs| && refs[i] > 0 ==>
      KeyOf(bufs'[i]) == KeyOf(bufs[i]) && bufs'[i].valid == bufs[i].valid && bufs'[i].data == bufs[i].data
        && bufs'[i].held == bufs[i].held
  }

  /** Changing a buffer that keeps its block and data. */
  lemma KeepCoherent(bufs: seq<Buf>, view: map<Key, Data>, disk: map<Key, Data>, i: int, b: Buf)
    requires Coherent(bufs, view, disk) && 0 <= i < |bufs| && KeyOf(b) == KeyOf(bufs[i]) && b.valid == bufs[i].valid
    requires InView(b, view, disk)
    ensures Coherent(bufs[i := b], view, disk)
  {
    var bufs' := bufs[i := b];
    forall k | k in disk && (forall j :: 0 <= j < |bufs'| ==> KeyOf(bufs'[j]) != k || !bufs'[j].valid)
      ensures disk[k] == view[k]
    {
      forall j | 0 <= j < |bufs| ensures KeyOf(bufs[j]) != k || !bufs[j].valid {
        assert KeyOf(bufs'[j]) != k || !bufs'[j].valid;
      }
    }
  }

  /** Recycling an unused buffer loses nothing. */
  lemma RecycleCoherent(bufs: seq<Buf>, view: map<Key, Data>, disk: map<Key, Data>, i: int, b: Buf)
    requires Coherent(bufs, view, disk) && Unique(bufs) && 0 <= i < |bufs| && bufs[i].refcnt == 0
    requires b.dev != 0 && KeyOf(b) in disk && !b.valid && forall j :: 0 <= j < |bufs| ==> KeyOf(bufs[j]) != KeyOf(b)
    ensures Coherent(bufs[i := b], view, disk) && Unique(bufs[i := b])
  {
    var bufs' := bufs[i := b];
    forall k | k in disk && (forall j :: 0 <= j < |bufs'| ==> KeyOf(bufs'[j]) != k || !bufs'[j].valid)
      ensures disk[k] == view[k]
    {
      if bufs[i].valid && KeyOf(bufs[i]) == k {
        assert InView(bufs[i], view, disk);
      } else {
        forall j | 0 <= j < |bufs| ensures KeyOf(bufs[j]) != k || !bufs[j].valid {
          assert KeyOf(bufs'[j]) != k || !bufs'[j].valid;
        }
      }
    }
  }

  /** Reading a block into its buffer. */
  lemma FillCoherent(bufs: seq<Buf>, view: map<Key, Data>, disk: map<Key, Data>, i: int)
    requires Coherent(bufs, view, disk) && Unique(bufs) && 0 <= i < |bufs| && bufs[i].dev != 0 && !bufs[i].valid
    ensures KeyOf(bufs[i]) in disk && disk[KeyOf(bufs[i])] == view[KeyOf(bufs[i])]
    ensures Coherent(bufs[i := bufs[i].(valid := true, data := disk[KeyOf(bufs[i])])], view, disk)
  {
    var k0 := KeyOf(bufs[i]);
    assert InView(bufs[i], view, disk);
    assert forall j :: 0 <= j < |bufs| ==> KeyOf(bufs[j]) != k0 || !bufs[j].valid;
    var bufs' := bufs[i := bufs[i].(valid := true, data := disk[k0])];
    forall k | k in disk && (forall j :: 0 <= j < |bufs'| ==> KeyOf(bufs'[j]) != k || !bufs'[j].valid)
      ensures disk[k] == view[k]
    {
      forall j | 0 <= j < |bufs| ensures KeyOf(bufs[j]) != k || !bufs[j].valid {
        assert KeyOf(bufs'[j]) != k || !bufs'[j].valid;
      }
    }
  }

  /** The owner of a locked buffer changes its data, or writes it to disk. */
  lemma WriteCoherent(bufs: seq<Buf>, view: map<Key, Data>, disk: map<Key, Data>, i: int, d: Data, toDisk: bool)
    requires Coherent(bufs, view, disk) && Unique(bufs) && 0 <= i < |bufs| && bufs[i].dev != 0 && bufs[i].valid
             && bufs[i].refcnt > 0
    requires toDisk ==> d == bufs[i].data
    ensures KeyOf(bufs[i]) in view && KeyOf(bufs[i]) in disk
    ensures var k := KeyOf(bufs[i]);
            Coherent(bufs[i := bufs[i].(data := d)], view[k := d], if toDisk then disk[k := d] else disk)
  {
    var k0 := KeyOf(bufs[i]);
    assert InView(bufs[i], view, disk);
    var bufs', view', disk' := bufs[i := bufs[i].(data := d)], view[k0 := d], if toDisk then disk[k0 := d] else disk;
    forall j | 0 <= j < |bufs'| ensures InView(bufs'[j], view', disk') {
      assert InView(bufs[j], view, disk);
    }
    forall k | k in disk' && (forall j :: 0 <= j < |bufs'| ==> KeyOf(bufs'[j]) != k || !bufs'[j].valid)
      ensures disk'[k] == view'[k]
    {
      assert KeyOf(bufs'[i]) != k;
      forall j | 0 <= j < |bufs| ensures KeyOf(bufs[j]) != k || !bufs[j].valid {
        assert KeyOf(bufs'[j]) != k || !bufs'[j].valid;
      }
    }
  }

  // ----- recency

  /** stamp[b] is when b was last moved to the front. */
  ghost predicate ByAge(ring: seq<int>, stamp: seq<nat>, clock: nat, h: int) {
    && |stamp| == h && (forall i :: 0 <= i < |ring| ==> 0 <= ring[i] < h && stamp[ring[i]] < clock)
    && (forall i, j :: 0 <= i < j < |ring| ==> 0 <= ring[i] < h && 0 <= ring[j] < h && stamp[ring[j]] < stamp[ring[i]])
  }

  // ----- getting a buffer

  function Bumped(bufs: seq<Buf>, b: int): seq<Buf>
    requires 0 <= b < |bufs|
  {
    bufs[b := bufs[b].(refcnt := (bufs[b].refcnt + 1) % UINT)]
  }

  function Recycled(bufs: seq<Buf>, b: int, dev: int, blockno: int): seq<Buf>
    requires 0 <= b < |bufs|
  {
    bufs[b := bufs[b].(dev := dev, blockno := blockno, valid := false, refcnt := 1)]
  }

  lemma HitOk(bufs: seq<Buf>, refs: seq<nat>, view: map<Key, Data>, disk: map<Key, Data>, b: int)
    requires Counted(bufs, refs) && Unique(bufs) && Coherent(bufs, view, disk) && 0 <= b < |bufs| && refs[b] + 1 < UINT
    ensures var bufs', refs' := Bumped(bufs, b), refs[b := refs[b] + 1];
            && Counted(bufs', refs') && Unique(bufs') && Coherent(bufs', view, disk) && UsersKept(bufs, bufs', refs)
            && bufs'[b].refcnt == bufs[b].refcnt + 1
  {
    assert (bufs[b].refcnt + 1) % UINT == bufs[b].refcnt + 1;
    assert InView(bufs[b], view, disk);
    KeepCoherent(bufs, view, disk, b, bufs[b].(refcnt := bufs[b].refcnt + 1));
  }

  lemma RecycleOk(bufs: seq<Buf>, refs: seq<nat>, view: map<Key, Data>, disk: map<Key, Data>, b: int, dev: int,
        blockno: int)
    requires Counted(bufs, refs) && Unique(bufs) && Coherent(bufs, view, disk) && 0 <= b < |bufs| && bufs[b].refcnt == 0
    requires dev != 0 && (dev, blockno) in disk && forall i :: 0 <= i < |bufs| ==> KeyOf(bufs[i]) != (dev, blockno)
    ensures var bufs', refs' := Recycled(bufs, b, dev, blockno), refs[b := 1];
            && refs[b] == 0 && Counted(bufs', refs') && Unique(bufs') && Coherent(bufs', view, disk)
            && UsersKept(bufs, bufs', refs)
  {
    RecycleCoherent(bufs, view, disk, b, bufs[b].(dev := dev, blockno := blockno, valid := false, refcnt := 1));
  }

  lemma NoneFree(bufs: seq<Buf>, refs: seq<nat>)
    requires Counted(bufs, refs)
    ensures UsersKept(bufs, bufs, refs) && forall i :: 0 <= i < |bufs| && bufs[i].refcnt != 0 ==> refs[i] > 0
  {
  }

  // ----- reference counts

  /** A 32-bit unsigned count less one. */
  function Unref(c: int): int { (c + UINT - 1) % UINT }

  lemma UnrefPositive(c: int)
    requires 0 < c < UINT
    ensures Unref(c) == c - 1
  {
  }

  function Dropped(bufs: seq<Buf>, b: int): seq<Buf>
    requires 0 <= b < |bufs|
  {
    bufs[b := bufs[b].(refcnt := Unref(bufs[b].refcnt))]
  }

  lemma DropOk(bufs: seq<Buf>, refs: seq<nat>, view: map<Key, Data>, disk: map<Key, Data>, b: int)
    requires Counted(bufs, refs) && Unique(bufs) && Coherent(bufs, view, disk) && 0 <= b < |bufs| && refs[b] > 0
    requires refs[b] == 1 ==>
               !bufs[b].held && (bufs[b].valid ==> KeyOf(bufs[b]) in disk && disk[KeyOf(bufs[b])] == bufs[b].data)
    ensures var bufs', refs' := Dropped(bufs, b), refs[b := refs[b] - 1];
            Counted(bufs', refs') && Unique(bufs') && Coherent(bufs', view, disk)
  {
    UnrefPositive(bufs[b].refcnt);
    assert InView(bufs[b], view, disk);
    KeepCoherent(bufs, view, disk, b, bufs[b].(refcnt := bufs[b].refcnt - 1));
  }

  class Cache {
    const h: nat                     // number of buffers, and the index of the list head
    var next: seq<int>
    var prev: seq<int>
    var bufs: seq<Buf>
    var disk: map<Key, Data>
    ghost var ring: seq<int>
    ghost var stamp: seq<nat>
    ghost var clock: nat
    ghost var refs: seq<nat>
    ghost var view: map<Key, Data>

    ghost predicate Ring()
      reads this`next, this`prev, this`bufs, this`ring, this`stamp, this`clock
    {
      && Linked(next, prev, ring, h) && ByAge(ring, stamp, clock, h) && |bufs| == h
      && (forall b :: 0 <= b < h ==> b in ring)
    }

    ghost predicate Valid()
      reads this
    {
      Ring() && Counted(bufs, refs) && Unique(bufs) && Coherent(bufs, view, disk)
    }

    /** binit: every buffer is put in front in turn. */
    constructor (n: nat, disk: map<Key, Data>)
      ensures fresh(this) && Valid() && h == n && this.disk == disk && view == disk && |ring| == n
      ensures forall i :: 0 <= i < n ==> refs[i] == 0 && ring[i] == n - 1 - i && bufs[i].dev == 0
    {
      h := n;
      next, prev := seq(n + 1, i => n), seq(n + 1, i => n);
      bufs := seq(n, i => Buf(false, 0, 0, 0, false, []));
      this.disk, view := disk, disk;
      ring, stamp, clock, refs := [], seq(n, i => 0), 0, seq(n, i => 0);
      new;
      assert Closed(ring, h) == [h, h];
      assert Linked(next, prev, ring, h);
      LinkAll();
      forall i | 0 <= i < h ensures i in ring {
        assert ring[h - 1 - i] == i;
      }
    }

    method LinkAll()
      requires Linked(next, prev, ring, h) && ByAge(ring, stamp, clock, h) && ring == []
      modifies this`next, this`prev, this`ring, this`stamp, this`clock
      ensures Linked(next, prev, ring, h) && ByAge(ring, stamp, clock, h)
      ensures |ring| == h && forall i :: 0 <= i < h ==> ring[i] == h - 1 - i
    {
      hide Linked, ByAge;
      var b := 0;
      while b < h
        invariant 0 <= b <= h && |ring| == b && Linked(next, prev, ring, h) && ByAge(ring, stamp, clock, h)
        invariant forall i :: 0 <= i < b ==> ring[i] == b - 1 - i
      {
        PutFront(b);
        b := b + 1;
      }
    }

    /** Link b in behind the head. */
    method PutFront(b: int)
      requires Linked(next, prev, ring, h) && ByAge(ring, stamp, clock, h) && 0 <= b < h && b !in ring
      modifies this`next, this`prev, this`ring, this`stamp, this`clock
      ensures Linked(next, prev, ring, h) && ByAge(ring, stamp, clock, h)
      ensures ring == [b] + old(ring) && stamp == old(stamp)[b := old(clock)] && clock == old(clock) + 1
    {
      PushFront(next, prev, ring, b, h);
      Touched(ring, stamp, clock, h, b);
      hide Follows, Nodes;
      var n, p := next, prev;
      next := next[b := next[h]];
      prev := prev[b := h];
      prev := prev[next[h] := b];
      next := next[h := b];
      ring, stamp, clock := [b] + ring, stamp[b := clock], clock + 1;
      assert next == n[b := n[h]][h := b] && prev == p[b := h][n[h] := b];
    }

    static lemma Touched(ring: seq<int>, stamp: seq<nat>, clock: nat, h: int, b: int)
      requires ByAge(ring, stamp, clock, h) && 0 <= b < h && b !in ring
      ensures ByAge([b] + ring, stamp[b := clock], clock + 1, h)
    {
    }

    // ----- bget

    ghost predicate Cached(k: Key)
      reads this
    {
      exists i :: 0 <= i < |bufs| && KeyOf(bufs[i]) == k
    }

    static lemma RingStep(next: seq<int>, prev: seq<int>, ring: seq<int>, h: int, i: int)
      requires Linked(next, prev, ring, h) && 0 <= i <= |ring|
      ensures |next| == |prev| == h + 1
      ensures var c := Closed(ring, h);
              && 0 <= c[i] <= h && 0 <= c[i + 1] <= h && next[c[i]] == c[i + 1] && prev[c[i + 1]] == c[i]
      ensures var c := Closed(ring, h); (c[i] == h <==> i == 0) && (c[i + 1] == h <==> i == |ring|) && |c| == |ring| + 2
      ensures var c := Closed(ring, h); (i < |ring| ==> c[i + 1] == ring[i]) && (i > 0 ==> c[i] == ring[i - 1])
    {
    }

    /** The first scan: the buffer for the block, or the head. */
    method FindCached(dev: int, blockno: int) returns (b: int)
      requires Ring()
      ensures 0 <= b <= h && (b < h ==> KeyOf(bufs[b]) == (dev, blockno))
      ensures b == h ==> forall i :: 0 <= i < h ==> KeyOf(bufs[i]) != (dev, blockno)
    {
      hide Linked, ByAge;
      ghost var i := 0;
      RingStep(next, prev, ring, h, 0);
      b := next[h];
      while b != h
        invariant 0 <= i <= |ring| && b == Closed(ring, h)[i + 1] && 0 <= b <= h && (b == h <==> i == |ring|)
        invariant forall j :: 0 <= j < i ==> 0 <= ring[j] < h && KeyOf(bufs[ring[j]]) != (dev, blockno)
        decreases |ring| - i
      {
        RingStep(next, prev, ring, h, i);
        if bufs[b].dev == dev && bufs[b].blockno == blockno {
          return;
        }
        RingStep(next, prev, ring, h, i + 1);
        b := next[b];
        i := i + 1;
      }
      forall k | 0 <= k < h ensures KeyOf(bufs[k]) != (dev, blockno) {
        assert k in ring;
      }
    }

    /** The second scan: the unused buffer moved to the front longest ago, or the head. */
    method FindUnused() returns (b: int)
      requires Ring()
      ensures 0 <= b <= h && (b == h ==> forall i :: 0 <= i < h ==> bufs[i].refcnt != 0)
      ensures b < h ==>
                && bufs[b].refcnt == 0 && |stamp| == h
                && forall i :: 0 <= i < h && i != b && bufs[i].refcnt == 0 ==> stamp[b] < stamp[i]
    {
      hide Linked;
      ghost var i := |ring|;
      RingStep(next, prev, ring, h, i);
      b := prev[h];
      while b != h
        invariant 0 <= i <= |ring| && b == Closed(ring, h)[i] && 0 <= b <= h && (b == h <==> i == 0)
        invariant forall j :: i <= j < |ring| ==> 0 <= ring[j] < h && bufs[ring[j]].refcnt != 0
        decreases i
      {
        RingStep(next, prev, ring, h, i);
        if bufs[b].refcnt == 0 {
          forall k | 0 <= k < h && k != b && bufs[k].refcnt == 0 ensures stamp[b] < stamp[k] {
            assert k in ring;
            var j :| 0 <= j < |ring| && ring[j] == k;
          }
          return;
        }
        RingStep(next, prev, ring, h, i - 1);
        b := prev[b];
        i := i - 1;
      }
      forall k | 0 <= k < h ensures bufs[k].refcnt != 0 {
        assert k in ring;
      }
    }

    /** bget up to the release of the cache's lock, whatever the counts are: a reference to the block's buffer,
        recycled from the least recently used one whose count is 0 if the block is not cached.  ok is false
        where the source panics because there is none. */
    method Reference(dev: int, blockno: int) returns (ok: bool, b: int)
      requires Ring()
      modifies this`bufs
      ensures Ring()
      ensures old(Cached((dev, blockno))) ==>
                ok && 0 <= b < h && KeyOf(old(bufs)[b]) == (dev, blockno) && bufs == Bumped(old(bufs), b)
      ensures !old(Cached((dev, blockno))) ==> (ok <==> exists i :: 0 <= i < h && old(bufs)[i].refcnt == 0)
      ensures !ok ==> bufs == old(bufs)
      ensures ok && !old(Cached((dev, blockno))) ==>
                && 0 <= b < h && old(bufs)[b].refcnt == 0 && bufs == Recycled(old(bufs), b, dev, blockno)
                && |stamp| == h && forall i :: 0 <= i < h && i != b && old(bufs)[i].refcnt == 0 ==> stamp[b] < stamp[i]
    {
      hide Linked, ByAge;
      b := FindCached(dev, blockno);
      if b != h {
        bufs := bufs[b := bufs[b].(refcnt := (bufs[b].refcnt + 1) % UINT)];
        return true, b;
      }
      b := FindUnused();
      if b == h {
        return false, b;
      }
      bufs := bufs[b := bufs[b].(dev := dev, blockno := blockno, valid := false, refcnt := 1)];
      return true, b;
    }

    /** The part of brelse under the cache's lock, whatever the counts are. */
    method Unreference(b: int)
      requires Ring() && 0 <= b < h
      modifies this`bufs, this`next, this`prev, this`ring, this`stamp, this`clock
      ensures Ring() && bufs == Dropped(old(bufs), b)
      ensures bufs[b].refcnt != 0 ==> ring == old(ring) && stamp == old(stamp) && clock == old(clock)
      ensures bufs[b].refcnt == 0 ==>
                |ring| > 0 && ring[0] == b && stamp == old(stamp)[b := old(clock)] && clock == old(clock) + 1
      ensures bufs[b].refcnt == 0 ==>
                exists k :: 0 <= k < |old(ring)| && old(ring)[k] == b && ring == [b] + Without(old(ring), k)
    {
      hide Linked, ByAge;
      bufs := bufs[b := bufs[b].(refcnt := Unref(bufs[b].refcnt))];
      if bufs[b].refcnt == 0 {
        MoveToFront(b);
      }
    }

    /** bpin, whatever the counts are. */
    method CountUp(b: int)
      requires Ring() && 0 <= b < h
      modifies this`bufs
      ensures Ring() && bufs == Bumped(old(bufs), b)
    {
      hide Linked, ByAge;
      bufs := bufs[b := bufs[b].(refcnt := (bufs[b].refcnt + 1) % UINT)];
    }

    /** bunpin, whatever the counts are. */
    method CountDown(b: int)
      requires Ring() && 0 <= b < h
      modifies this`bufs
      ensures Ring() && bufs == Dropped(old(bufs), b)
    {
      hide Linked, ByAge;
      bufs := bufs[b := bufs[b].(refcnt := Unref(bufs[b].refcnt))];
    }

    /** bget among clients that count properly. */
    method Bget(dev: int, blockno: int) returns (ok: bool, b: int)
      requires Valid() && dev != 0 && (dev, blockno) in disk && forall i :: 0 <= i < h ==> refs[i] + 1 < UINT
      modifies this`bufs, this`refs
      ensures Valid() && |bufs| == |old(bufs)| == |old(refs)| && UsersKept(old(bufs), bufs, old(refs))
      ensures !ok <==> !old(Cached((dev, blockno))) && forall i :: 0 <= i < h ==> old(refs)[i] > 0
      ensures !ok ==> bufs == old(bufs) && refs == old(refs)
      ensures ok ==> 0 <= b < h && KeyOf(bufs[b]) == (dev, blockno) && refs == old(refs)[b := old(refs)[b] + 1]
      ensures ok && old(Cached((dev, blockno))) ==>
                KeyOf(old(bufs)[b]) == (dev, blockno)
                  && bufs == old(bufs)[b := old(bufs)[b].(refcnt := old(bufs)[b].refcnt + 1)]
      ensures ok && !old(Cached((dev, blockno))) ==>
                && bufs == old(bufs)[b := old(bufs)[b].(dev := dev, blockno := blockno, valid := false, refcnt := 1)]
                && forall i :: 0 <= i < h && i != b && old(refs)[i] == 0 ==> stamp[b] < stamp[i]
    {
      hide Ring, Counted, Unique, Coherent, UsersKept;
      RingSize();
      ok, b := Reference(dev, blockno);
      if ok && old(Cached((dev, blockno))) {
        HitOk(old(bufs), refs, view, disk, b);
        refs := refs[b := refs[b] + 1];
      } else if ok {
        RecycleOk(old(bufs), refs, view, disk, b, dev, blockno);
        refs := refs[b := 1];
      } else {
        NoneFree(bufs, refs);
      }
    }

    lemma RingSize()
      requires Valid()
      ensures |bufs| == |refs| == |stamp| == h && forall i :: 0 <= i < h ==> bufs[i].refcnt == refs[i]
    {
    }

    // ----- bread and bwrite

    /** acquiresleep, once the lock is free. */
    method Lock(b: int)
      requires Valid() && 0 <= b < h && refs[b] > 0 && !bufs[b].held
      modifies this`bufs
      ensures Valid() && bufs == old(bufs)[b := old(bufs)[b].(held := true)]
    {
      ghost var buf := bufs[b].(held := true);
      assert InView(bufs[b], view, disk);
      hide Linked, ByAge, Coherent;
      KeepCoherent(bufs, view, disk, b, buf);
      bufs := bufs[b := bufs[b].(held := true)];
    }

    /** The rest of bread: read the block if need be. */
    method Fill(b: int)
      requires Valid() && 0 <= b < h && bufs[b].held && bufs[b].dev != 0
      modifies this`bufs
      ensures Valid() && bufs[b].valid && KeyOf(bufs[b]) in view && bufs[b].data == view[KeyOf(bufs[b])]
      ensures bufs == old(bufs)[b := old(bufs)[b].(valid := true, data := bufs[b].data)]
    {
      assert InView(bufs[b], view, disk);
      hide Linked, ByAge, Coherent;
      if !bufs[b].valid {
        FillCoherent(bufs, view, disk, b);
        bufs := bufs[b := bufs[b].(valid := true, data := disk[KeyOf(bufs[b])])];
      }
    }

    /** bread where nobody else has the block's buffer locked: what it returns is the block's current contents. */
    method Bread(dev: int, blockno: int) returns (ok: bool, b: int)
      requires Valid() && dev != 0 && (dev, blockno) in disk && forall i :: 0 <= i < h ==> refs[i] + 1 < UINT
      requires forall i :: 0 <= i < h && KeyOf(bufs[i]) == (dev, blockno) ==> !bufs[i].held
      modifies this`bufs, this`refs
      ensures Valid()
      ensures ok <==> old(Cached((dev, blockno))) || exists i :: 0 <= i < h && old(refs)[i] == 0
      ensures ok ==> 0 <= b < h && KeyOf(bufs[b]) == (dev, blockno) && bufs[b].held && bufs[b].valid
      ensures ok ==>
                && (dev, blockno) in view && bufs[b].data == view[(dev, blockno)]
                && refs == old(refs)[b := old(refs)[b] + 1]
      ensures ok ==> forall i :: 0 <= i < h && i != b && old(refs)[i] > 0 ==> bufs[i] == old(bufs)[i]
    {
      hide Ring, Unique, Coherent, UsersKept;
      RingSize();
      ok, b := Bget(dev, blockno);
      if ok {
        Lock(b);
        Fill(b);
      }
    }

    /** The holder changes the data of a locked buffer. */
    method Modify(b: int, d: Data)
      requires Valid() && 0 <= b < h && bufs[b].held && bufs[b].valid && bufs[b].dev != 0
      modifies this`bufs, this`view
      ensures Valid() && bufs == old(bufs)[b := old(bufs)[b].(data := d)] && view == old(view)[KeyOf(bufs[b]) := d]
    {
      hide Linked, ByAge, Coherent;
      WriteCoherent(bufs, view, disk, b, d, false);
      bufs := bufs[b := bufs[b].(data := d)];
      view := view[KeyOf(bufs[b]) := d];
    }

    /** Write a locked buffer to disk; the precondition is the bwrite panic. */
    method Bwrite(b: int)
      requires Valid() && 0 <= b < h && bufs[b].held && bufs[b].valid && bufs[b].dev != 0
      modifies this`disk
      ensures Valid() && disk == old(disk)[KeyOf(bufs[b]) := bufs[b].data]
              && disk[KeyOf(bufs[b])] == view[KeyOf(bufs[b])]
    {
      assert InView(bufs[b], view, disk);
      hide Linked, ByAge, Coherent;
      WriteCoherent(bufs, view, disk, b, bufs[b].data, true);
      disk := disk[KeyOf(bufs[b]) := bufs[b].data];
      assert bufs[b := bufs[b].(data := bufs[b].data)] == bufs;
      assert view[KeyOf(bufs[b]) := bufs[b].data] == view;
    }

    // ----- letting go

    method Bpin(b: int)
      requires Valid() && 0 <= b < h && refs[b] + 1 < UINT
      modifies this`bufs, this`refs
      ensures Valid() && bufs == Bumped(old(bufs), b) && refs == old(refs)[b := old(refs)[b] + 1]
    {
      HitOk(bufs, refs, view, disk, b);
      hide Ring, Counted, Unique, Coherent;
      RingSize();
      CountUp(b);
      refs := refs[b := refs[b] + 1];
    }

    /** A buffer may lose its last reference only when nobody has it locked and it agrees with the disk. */
    ghost predicate MayDrop(b: int)
      requires 0 <= b < |bufs| == |refs|
      reads this
    {
      && refs[b] > 0
      && (refs[b] == 1 ==>
            !bufs[b].held && (bufs[b].valid ==> KeyOf(bufs[b]) in disk && disk[KeyOf(bufs[b])] == bufs[b].data))
    }

    method Bunpin(b: int)
      requires Valid() && 0 <= b < h && MayDrop(b)
      modifies this`bufs, this`refs
      ensures Valid() && bufs == Dropped(old(bufs), b) && refs == old(refs)[b := old(refs)[b] - 1]
    {
      DropOk(bufs, refs, view, disk, b);
      hide Ring, Counted, Unique, Coherent;
      RingSize();
      CountDown(b);
      refs := refs[b := refs[b] - 1];
    }

    /** releasesleep. */
    method Unlock(b: int)
      requires Valid() && 0 <= b < h && bufs[b].held
      modifies this`bufs
      ensures Valid() && bufs == old(bufs)[b := old(bufs)[b].(held := false)]
    {
      assert InView(bufs[b], view, disk);
      hide Linked, ByAge, Coherent;
      KeepCoherent(bufs, view, disk, b, bufs[b].(held := false));
      bufs := bufs[b := bufs[b].(held := false)];
    }

    /** The part of brelse under the cache's lock: a buffer without references moves to the front. */
    method Drop(b: int)
      requires Valid() && 0 <= b < h && MayDrop(b)
      modifies this`bufs, this`refs, this`next, this`prev, this`ring, this`stamp, this`clock
      ensures Valid() && bufs == Dropped(old(bufs), b) && refs == old(refs)[b := old(refs)[b] - 1]
      ensures refs[b] > 0 ==> ring == old(ring) && stamp == old(stamp)
      ensures refs[b] == 0 ==>
                |ring| > 0 && ring[0] == b && stamp == old(stamp)[b := old(clock)] && clock == old(clock) + 1
      ensures refs[b] == 0 ==>
                exists k :: 0 <= k < |old(ring)| && old(ring)[k] == b && ring == [b] + Without(old(ring), k)
    {
      DropOk(bufs, refs, view, disk, b);
      hide Ring, Counted, Unique, Coherent;
      RingSize();
      Unreference(b);
      refs := refs[b := refs[b] - 1];
      RingSize();
    }

    method MoveToFront(b: int)
      requires Ring() && 0 <= b < h
      modifies this`next, this`prev, this`ring, this`stamp, this`clock
      ensures Ring() && |ring| > 0 && ring[0] == b && stamp == old(stamp)[b := old(clock)] && clock == old(clock) + 1
      ensures exists k :: 0 <= k < |old(ring)| && old(ring)[k] == b && ring == [b] + Without(old(ring), k)
    {
      assert b in ring;
      ghost var k :| 0 <= k < |ring| && ring[k] == b;
      Unlink(next, prev, ring, k, h);
      WithoutNodes(ring, k, h);
      WithoutAge(ring, stamp, clock, h, k);
      hide Linked, ByAge;
      ghost var r := ring;
      RingStep(next, prev, ring, h, k);
      next, prev := next[prev[b] := next[b]], prev[next[b] := prev[b]];
      ring := Without(ring, k);
      PutFront(b);
      forall c | 0 <= c < h ensures c in ring {
        assert c in r;
      }
    }

    static lemma WithoutAge(ring: seq<int>, stamp: seq<nat>, clock: nat, h: int, k: int)
      requires ByAge(ring, stamp, clock, h) && 0 <= k < |ring|
      ensures ByAge(Without(ring, k), stamp, clock, h)
    {
    }

    /** Release a locked buffer; the precondition that it is locked is the brelse panic. */
    method Brelse(b: int)
      requires Valid() && 0 <= b < h && bufs[b].held
      requires refs[b] == 1 && bufs[b].valid ==> KeyOf(bufs[b]) in disk && disk[KeyOf(bufs[b])] == bufs[b].data
      modifies this`bufs, this`refs, this`next, this`prev, this`ring, this`stamp, this`clock
      ensures Valid() && refs == old(refs)[b := old(refs)[b] - 1]
      ensures bufs == old(bufs)[b := old(bufs)[b].(held := false, refcnt := old(bufs)[b].refcnt - 1)]
      ensures refs[b] == 0 ==> |ring| > 0 && ring[0] == b
    {
      hide Ring, Counted, Unique, Coherent;
      RingSize();
      HeldReferenced(b);
      Unlock(b);
      Drop(b);
      UnrefPositive(old(bufs)[b].refcnt);
    }

    lemma HeldReferenced(b: int)
      requires Valid() && 0 <= b < h && bufs[b].held
      ensures refs[b] > 0 && bufs[b].refcnt < UINT
    {
    }
  }
}
