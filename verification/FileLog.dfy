/**
 Which blocks writing and truncating a file pass to log_write (kernel/fs.c), as sets of block numbers: the
 empty slots that bmap fills, the blocks they get, and the bitmap, indirect and data blocks that go with them.
 */
module FileLog {
  import opened FsDisk

  /** The blocks in the slots W of inode i. */
  ghost function News(d: Disk, i: int, W: set<int>): set<int>
    requires Shaped(d) && i in d.inodes
  {
    set k | k in W && 0 <= k < SLOTS :: At(d, i, k)
  }

  /** The bitmap blocks of a set of blocks. */
  function Bits(bmapStart: int, bs: set<int>): set<int> {
    set b | b in bs :: b / BPB + bmapStart
  }

  /** All bitmap blocks of a disk of n blocks, and how many there are. */
  function BitBlocks(bmapStart: int, n: int): set<int> {
    Range(bmapStart, bmapStart + BitCount(n))
  }

  /** The numbers lo..hi - 1. */
  function Range(lo: int, hi: int): set<int> { set q | lo <= q < hi && Within(q, lo, hi) }

  predicate Within(q: int, lo: int, hi: int) { lo <= q < hi }

  function BitCount(n: int): int { (n + BPB - 1) / BPB }

  /** From d0 to d the empty slots W of inode i, and no others, were given blocks that nobody owned. */
  ghost predicate Fills(d0: Disk, d: Disk, i: int, W: set<int>)
    requires Shaped(d0) && Shaped(d)
  {
    && i in d0.inodes && i in d.inodes && d.start == d0.start && |d.used| == |d0.used|
    && (forall k :: k in W ==> 0 <= k < SLOTS && At(d0, i, k) == 0 && At(d, i, k) != 0)
    && (forall k :: 0 <= k < SLOTS && k !in W ==> At(d, i, k) == At(d0, i, k))
    && d.owner.Keys == d0.owner.Keys + News(d, i, W)
    && d0.owner.Keys !! News(d, i, W)
  }

  /** Some entry of the indirect block is among the slots. */
  predicate Deep(W: set<int>) { exists k :: k in W && k > INDIRECT }

  ghost function Indirect(d: Disk, i: int, W: set<int>): set<int>
    requires Shaped(d) && i in d.inodes
  {
    if Deep(W) then {At(d, i, INDIRECT)} else {}
  }

  /** The blocks logged by giving the slots W their blocks. */
  ghost function FillLog(d: Disk, i: int, W: set<int>, bmapStart: int): set<int>
    requires Shaped(d) && i in d.inodes
  {
    News(d, i, W) + Bits(bmapStart, News(d, i, W)) + Indirect(d, i, W)
  }

  lemma FillsNone(d: Disk, i: int, bmapStart: int)
    requires Shaped(d) && i in d.inodes
    ensures Fills(d, d, i, {}) && FillLog(d, i, {}, bmapStart) == {}
  {
    assert News(d, i, {}) == {};
    assert Bits(bmapStart, {}) == {};
  }

  /** The two sets of slots are different ones, and the blocks of the first are left alone. */
  lemma FillsApart(d0: Disk, d: Disk, d': Disk, i: int, W: set<int>, V: set<int>)
    requires Shaped(d0) && Shaped(d) && Shaped(d') && Fills(d0, d, i, W) && Fills(d, d', i, V)
    ensures (forall k :: k in W ==> k !in V) && News(d', i, W) == News(d, i, W)
            && News(d', i, W + V) == News(d, i, W) + News(d', i, V)
  {
    forall k | k in W ensures k !in V && At(d', i, k) == At(d, i, k) {
      assert At(d, i, k) != 0;
    }
    forall b | b in News(d', i, W + V) ensures b in News(d, i, W) + News(d', i, V) {
      var k :| k in W + V && 0 <= k < SLOTS && b == At(d', i, k);
    }
    forall b | b in News(d, i, W) ensures b in News(d', i, W + V) {
      var k :| k in W && 0 <= k < SLOTS && b == At(d, i, k);
      assert k in W + V && At(d', i, k) == b;
    }
    forall b | b in News(d', i, V) ensures b in News(d', i, W + V) {
      var k :| k in V && 0 <= k < SLOTS && b == At(d', i, k);
      assert k in W + V;
    }
    assert News(d', i, W) == News(d, i, W);
  }

  lemma FillsThen(d0: Disk, d: Disk, d': Disk, i: int, W: set<int>, V: set<int>)
    requires Shaped(d0) && Shaped(d) && Shaped(d') && Fills(d0, d, i, W) && Fills(d, d', i, V)
    ensures Fills(d0, d', i, W + V)
  {
    FillsApart(d0, d, d', i, W, V);
    forall k | k in W + V ensures 0 <= k < SLOTS && At(d0, i, k) == 0 && At(d', i, k) != 0 {
      if k in W {
        assert k !in V;
      }
    }
    hide At;
  }

  lemma BitsJoin(bmapStart: int, a: set<int>, b: set<int>)
    ensures Bits(bmapStart, a + b) == Bits(bmapStart, a) + Bits(bmapStart, b)
  {
    forall q | q in Bits(bmapStart, a) + Bits(bmapStart, b) ensures q in Bits(bmapStart, a + b) {
      var x :| x in a + b && q == x / BPB + bmapStart;
    }
  }

  /** The indirect block, once there, stays the same. */
  lemma IndirectJoin(d0: Disk, d: Disk, d': Disk, i: int, W: set<int>, V: set<int>)
    requires Shaped(d0) && Shaped(d) && Shaped(d') && Fills(d0, d, i, W) && Fills(d, d', i, V)
    ensures Indirect(d', i, W + V) == Indirect(d, i, W) + Indirect(d', i, V)
  {
    if Deep(W) {
      var k :| k in W && k > INDIRECT;
      assert At(d, i, k) != 0;
      assert At(d, i, INDIRECT) != 0;
      assert k in W + V;
    }
    if Deep(V) {
      var k :| k in V && k > INDIRECT;
      assert k in W + V;
    }
    if Deep(W + V) {
      var k :| k in W + V && k > INDIRECT;
      assert k in W || k in V;
    }
  }

  lemma LogThen(d0: Disk, d: Disk, d': Disk, i: int, W: set<int>, V: set<int>, bmapStart: int)
    requires Shaped(d0) && Shaped(d) && Shaped(d') && Fills(d0, d, i, W) && Fills(d, d', i, V)
    ensures FillLog(d', i, W + V, bmapStart) == FillLog(d, i, W, bmapStart) + FillLog(d', i, V, bmapStart)
  {
    FillsApart(d0, d, d', i, W, V);
    IndirectJoin(d0, d, d', i, W, V);
    BitsJoin(bmapStart, News(d, i, W), News(d', i, V));
    hide Fills, News, Bits, Indirect;
  }

  // ----- the slots a write needs

  /** The block of a file that a data slot is for. */
  function BlockOf(k: int): int { if k < NDIRECT then k else k - 1 }

  /** The empty slots that mapping blocks lo..hi - 1 of file i fills. */
  ghost function Wanted(d: Disk, i: int, lo: int, hi: int): set<int>
    requires Shaped(d) && i in d.inodes
  {
    set k | 0 <= k < SLOTS && At(d, i, k) == 0 && Touches(k, lo, hi)
  }

  predicate Touches(k: int, lo: int, hi: int) {
    if k == INDIRECT then lo < hi && hi > NDIRECT else lo <= BlockOf(k) < hi
  }

  lemma WantedNone(d: Disk, i: int, lo: int)
    requires Shaped(d) && i in d.inodes
    ensures Wanted(d, i, lo, lo) == {}
  {
  }

  lemma WantedMore(d0: Disk, d: Disk, i: int, lo: int, hi: int)
    requires Shaped(d0) && Shaped(d) && 0 <= lo <= hi < MAXFILE && i in d0.inodes
             && Fills(d0, d, i, Wanted(d0, i, lo, hi))
    ensures Wanted(d0, i, lo, hi) + Wanted(d, i, hi, hi + 1) == Wanted(d0, i, lo, hi + 1)
  {
    forall k | k in Wanted(d0, i, lo, hi + 1) && k !in Wanted(d0, i, lo, hi) ensures k in Wanted(d, i, hi, hi + 1) {
      assert At(d, i, k) == At(d0, i, k);
      assert Touches(k, hi, hi + 1);
    }
    var V := Wanted(d, i, hi, hi + 1);
    forall k | k in V ensures k in Wanted(d0, i, lo, hi + 1) {
      assert k !in Wanted(d0, i, lo, hi);
      assert At(d, i, k) == At(d0, i, k);
      assert Touches(k, lo, hi + 1);
    }
  }

  /** Mapping blocks lo..mid - 1 and then blocks lo2..hi - 1 fills what mapping lo..hi - 1 does, each slot once. */
  lemma WantedJoin(d0: Disk, d: Disk, i: int, lo: int, mid: int, lo2: int, hi: int)
    requires Shaped(d0) && Shaped(d) && 0 <= lo <= lo2 <= mid <= hi && lo2 < hi && i in d0.inodes
    requires Fills(d0, d, i, Wanted(d0, i, lo, mid))
    ensures Wanted(d0, i, lo, mid) + Wanted(d, i, lo2, hi) == Wanted(d0, i, lo, hi)
    ensures Wanted(d0, i, lo, mid) !! Wanted(d, i, lo2, hi)
  {
    forall k | k in Wanted(d0, i, lo, hi) && k !in Wanted(d0, i, lo, mid) ensures k in Wanted(d, i, lo2, hi) {
      assert At(d, i, k) == At(d0, i, k);
      assert Touches(k, lo2, hi);
    }
    forall k | k in Wanted(d, i, lo2, hi) ensures k in Wanted(d0, i, lo, hi) {
      assert k !in Wanted(d0, i, lo, mid);
      assert At(d, i, k) == At(d0, i, k);
      assert Touches(k, lo, hi);
    }
    forall k | k in Wanted(d0, i, lo, mid) ensures k in Wanted(d0, i, lo, hi) {
      assert Touches(k, lo, hi);
    }
  }

  /** The data blocks lo..hi - 1 of a file. */
  ghost function Data(d: Disk, i: int, lo: int, hi: int): set<int>
    requires Shaped(d) && i in d.inodes && 0 <= lo && hi <= MAXFILE
  {
    set bn | lo <= bn < hi :: At(d, i, FileSlot(bn))
  }

  lemma DataMore(d: Disk, i: int, lo: int, hi: int)
    requires Shaped(d) && i in d.inodes && 0 <= lo <= hi < MAXFILE
    ensures Data(d, i, lo, hi + 1) == Data(d, i, lo, hi) + {At(d, i, FileSlot(hi))}
  {
    forall b | b in Data(d, i, lo, hi) + {At(d, i, FileSlot(hi))} ensures b in Data(d, i, lo, hi + 1) {
      if b != At(d, i, FileSlot(hi)) {
        var bn :| lo <= bn < hi && b == At(d, i, FileSlot(bn));
        assert lo <= bn < hi + 1;
      }
    }
  }

  lemma DataSame(d: Disk, d': Disk, i: int, lo: int, hi: int)
    requires Shaped(d) && Shaped(d') && i in d.inodes && i in d'.inodes && 0 <= lo && hi <= MAXFILE
    requires forall bn :: lo <= bn < hi ==> At(d', i, FileSlot(bn)) == At(d, i, FileSlot(bn))
    ensures Data(d', i, lo, hi) == Data(d, i, lo, hi)
  {
    forall b | b in Data(d, i, lo, hi) ensures b in Data(d', i, lo, hi) {
      var bn :| lo <= bn < hi && b == At(d, i, FileSlot(bn));
      assert b == At(d', i, FileSlot(bn));
    }
  }

  // ----- how many

  lemma CardUnion(a: set<int>, b: set<int>)
    ensures |a + b| <= |a| + |b|
  {
    assert |a + b| == |a| + |b| - |a * b|;
  }

  lemma CardSub(a: set<int>, b: set<int>)
    requires a <= b
    ensures |a| <= |b|
  {
    assert b == a + (b - a);
  }

  lemma {:induction false} RangeCard(lo: int, hi: int)
    requires lo <= hi
    ensures |Range(lo, hi)| == hi - lo
    decreases hi - lo
  {
    if lo < hi {
      RangeCard(lo, hi - 1);
      assert Within(hi - 1, lo, hi);
      forall q | q in Range(lo, hi - 1) ensures q in Range(lo, hi) {
        assert Within(q, lo, hi);
      }
      forall q | q in Range(lo, hi) && q != hi - 1 ensures q in Range(lo, hi - 1) {
        assert Within(q, lo, hi - 1);
      }
      assert Range(lo, hi) == Range(lo, hi - 1) + {hi - 1};
    } else {
      assert Range(lo, hi) == {};
    }
  }

  lemma Pick(W: set<int>) returns (k: int)
    requires |W| > 0
    ensures k in W
  {
    if forall j :: j !in W {
      assert false;
    }
    k :| k in W;
  }

  lemma {:induction false} InjectiveCard(W: set<int>, f: map<int, int>)
    requires W <= f.Keys && forall k, j :: k in W && j in W && k != j ==> f[k] != f[j]
    ensures |set k | k in W :: f[k]| == |W|
    decreases |W|
  {
    if |W| > 0 {
      var k := Pick(W);
      InjectiveCard(W - {k}, f);
      assert (set j | j in W :: f[j]) == (set j | j in W - {k} :: f[j]) + {f[k]};
    }
  }

  /** Different slots have different blocks. */
  lemma NewsCard(d: Disk, i: int, W: set<int>)
    requires Owned(d, {}) && i in d.inodes && forall k :: k in W ==> 0 <= k < SLOTS && At(d, i, k) != 0
    ensures |News(d, i, W)| == |W|
  {
    var f := map k | k in W && 0 <= k < SLOTS :: At(d, i, k);
    forall k, j | k in W && j in W && k != j ensures f[k] != f[j] {
      if At(d, i, j) == At(d, i, k) {
        SlotsDistinct(d, {}, i, j, i, k);
      }
    }
    InjectiveCard(W, f);
    assert News(d, i, W) == set k | k in W :: f[k];
  }

  lemma {:induction false} BitsCard(bmapStart: int, bs: set<int>)
    ensures |Bits(bmapStart, bs)| <= |bs|
    decreases |bs|
  {
    if b :| b in bs {
      BitsCard(bmapStart, bs - {b});
      assert bs == (bs - {b}) + {b};
      BitsJoin(bmapStart, bs - {b}, {b});
      assert Bits(bmapStart, {b}) == {b / BPB + bmapStart};
      CardUnion(Bits(bmapStart, bs - {b}), {b / BPB + bmapStart});
    } else {
      assert Bits(bmapStart, bs) == {};
    }
  }

  lemma BitInside(bmapStart: int, b: int, n: int)
    requires 0 <= b < n
    ensures b / BPB + bmapStart in BitBlocks(bmapStart, n)
  {
    assert Within(b / BPB + bmapStart, bmapStart, bmapStart + BitCount(n));
  }

  lemma BitsInside(bmapStart: int, bs: set<int>, n: int)
    requires 0 <= n && forall b :: b in bs ==> 0 <= b < n
    ensures Bits(bmapStart, bs) <= BitBlocks(bmapStart, n) && |BitBlocks(bmapStart, n)| == BitCount(n)
    ensures |Bits(bmapStart, bs)| <= BitCount(n)
  {
    forall q | q in Bits(bmapStart, bs) ensures q in BitBlocks(bmapStart, n) {
      var b :| b in bs && q == b / BPB + bmapStart;
      BitInside(bmapStart, b, n);
    }
    RangeCard(bmapStart, bmapStart + BitCount(n));
    CardSub(Bits(bmapStart, bs), BitBlocks(bmapStart, n));
  }

  // ----- whether there are enough blocks

  ghost function FreeBlocks(d: Disk): set<int>
    requires 0 <= d.start
  {
    set b | d.start <= b < |d.used| && !d.used[b]
  }

  ghost predicate Full(d: Disk) {
    forall c :: 0 <= c < |d.used| ==> d.used[c]
  }

  lemma FreeWereNews(d0: Disk, d: Disk, i: int, W: set<int>)
    requires Owned(d0, {}) && Owned(d, {}) && Fills(d0, d, i, W) && Full(d)
    ensures FreeBlocks(d0) <= News(d, i, W)
  {
    hide At, News, SlotsOwned;
    forall b | b in FreeBlocks(d0) ensures b in News(d, i, W) {
      assert d.used[b];
      assert b in d.owner && b !in d0.owner;
    }
  }

  lemma NewsFree(d0: Disk, d: Disk, i: int, W: set<int>)
    requires Owned(d0, {}) && Owned(d, {}) && Fills(d0, d, i, W)
    ensures Shaped(d) && i in d.inodes && 0 <= d0.start && News(d, i, W) <= FreeBlocks(d0) && |News(d, i, W)| == |W|
  {
    NewsCard(d, i, W);
    hide At, News, SlotsOwned;
    forall b | b in News(d, i, W) ensures b in FreeBlocks(d0) {
      assert b in d.owner && b !in d0.owner;
    }
  }

  /** New blocks were free before; when nothing is free any more, they are all that was free. */
  lemma NewsWereFree(d0: Disk, d: Disk, i: int, W: set<int>)
    requires Owned(d0, {}) && Owned(d, {}) && Fills(d0, d, i, W)
    ensures News(d, i, W) <= FreeBlocks(d0) && |News(d, i, W)| == |W| <= |FreeBlocks(d0)|
    ensures Full(d) ==> FreeBlocks(d0) == News(d, i, W)
  {
    hide Owned, Fills, News, FreeBlocks, Full;
    NewsFree(d0, d, i, W);
    CardSub(News(d, i, W), FreeBlocks(d0));
    if Full(d) {
      FreeWereNews(d0, d, i, W);
    }
  }

  /** What is free after filling slots is what was free before without the new blocks. */
  lemma FreeAfter(d0: Disk, d: Disk, i: int, W: set<int>)
    requires Owned(d0, {}) && Owned(d, {}) && Fills(d0, d, i, W)
    ensures |FreeBlocks(d)| + |W| == |FreeBlocks(d0)|
  {
    hide Owned, Fills, News, FreeBlocks;
    NewsFree(d0, d, i, W);
    StillFree(d0, d, i, W);
    assert FreeBlocks(d0) == FreeBlocks(d) + News(d, i, W);
  }

  lemma StillFree(d0: Disk, d: Disk, i: int, W: set<int>)
    requires Owned(d0, {}) && Owned(d, {}) && Fills(d0, d, i, W)
    ensures 0 <= d.start && FreeBlocks(d) == FreeBlocks(d0) - News(d, i, W)
  {
    hide At, News, SlotsOwned;
    forall b | d.start <= b < |d.used| ensures !d.used[b] <==> !d0.used[b] && b !in News(d, i, W) {
      assert d.used[b] <==> b in d.owner;
      assert d0.used[b] <==> b in d0.owner;
    }
  }
}
