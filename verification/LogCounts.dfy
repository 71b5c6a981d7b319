/**
 * kernel/log.c over the buffer cache, for what it does to the buffers' reference counts: which blocks stay
 * cached, and when there is no buffer left.  Log blocks are read, copied and written here without their data.
 */
module LogCounts {
  import opened BufferCache

  const ROOTDEV: int := 1

  /** The reference counts that are not 0, by block. */
  type Counts = map<int, int>

  function At(cnt: Counts, b: int): int { if b in cnt then cnt[b] else 0 }

  /** Block b is counted n times more, modulo 2^32. */
  function Plus(cnt: Counts, b: int, n: int): Counts {
    var v := (At(cnt, b) + n) % UINT;
    if v == 0 then cnt - {b} else cnt[b := v]
  }

  // ----- the counts of a cache

  ghost predicate Holds(bufs: seq<Buf>, b: int, n: int) {
    exists i :: 0 <= i < |bufs| && KeyOf(bufs[i]) == (ROOTDEV, b) && bufs[i].refcnt == n
  }

  ghost predicate InUse(buf: Buf, cnt: Counts) {
    buf.refcnt != 0 ==> buf.dev == ROOTDEV && buf.blockno in cnt && cnt[buf.blockno] == buf.refcnt
  }

  ghost predicate Tally(bufs: seq<Buf>, cnt: Counts) {
    && Unique(bufs)
    && (forall i :: 0 <= i < |bufs| ==> InUse(bufs[i], cnt))
    && (forall b :: b in cnt ==> 0 < cnt[b] < UINT && Holds(bufs, b, cnt[b]))
  }

  /** The blocks in use among the first n buffers. */
  ghost function Used(bufs: seq<Buf>, n: int): set<int>
    requires 0 <= n <= |bufs|
  {
    set i | 0 <= i < n && bufs[i].refcnt != 0 :: bufs[i].blockno
  }

  /** No two buffers in use have the same block. */
  ghost predicate OneEach(bufs: seq<Buf>) {
    forall i, j :: 0 <= i < j < |bufs| && bufs[i].refcnt != 0 && bufs[j].refcnt != 0 ==>
      bufs[i].blockno != bufs[j].blockno
  }

  ghost predicate AllInUse(bufs: seq<Buf>, n: int)
    requires 0 <= n <= |bufs|
  {
    forall i :: 0 <= i < n ==> bufs[i].refcnt != 0
  }

  lemma UsedStep(bufs: seq<Buf>, n: int)
    requires 0 < n <= |bufs| && OneEach(bufs)
    ensures bufs[n - 1].refcnt == 0 ==> Used(bufs, n) == Used(bufs, n - 1)
    ensures bufs[n - 1].refcnt != 0 ==>
              bufs[n - 1].blockno !in Used(bufs, n - 1) && Used(bufs, n) == Used(bufs, n - 1) + {bufs[n - 1].blockno}
  {
  }

  lemma UsedNone(bufs: seq<Buf>)
    ensures |Used(bufs, 0)| == 0
  {
    assert Used(bufs, 0) == {};
  }

  lemma {:induction false} UsedCard(bufs: seq<Buf>, n: int)
    requires 0 <= n <= |bufs| && OneEach(bufs)
    ensures |Used(bufs, n)| <= n && (|Used(bufs, n)| == n <==> AllInUse(bufs, n))
    decreases n
  {
    hide Used, OneEach;
    if n == 0 {
      UsedNone(bufs);
    } else {
      UsedCard(bufs, n - 1);
      UsedStep(bufs, n);
    }
  }

  /** A buffer is free exactly when fewer blocks are in use than there are buffers. */
  lemma Spare(bufs: seq<Buf>, cnt: Counts)
    requires Tally(bufs, cnt)
    ensures |cnt| <= |bufs|
    ensures (exists i :: 0 <= i < |bufs| && bufs[i].refcnt == 0) <==> |cnt| < |bufs|
  {
    forall i | 0 <= i < |bufs| ensures InUse(bufs[i], cnt) {
    }
    UsedCard(bufs, |bufs|);
    forall b | b in cnt ensures b in Used(bufs, |bufs|) {
      var i :| 0 <= i < |bufs| && KeyOf(bufs[i]) == (ROOTDEV, b) && bufs[i].refcnt == cnt[b];
    }
    forall i | 0 <= i < |bufs| && bufs[i].refcnt != 0 ensures bufs[i].blockno in cnt {
      assert InUse(bufs[i], cnt);
    }
    assert Used(bufs, |bufs|) == cnt.Keys;
    assert |cnt| == |cnt.Keys|;
  }

  // ----- one reference more or less

  /** The count of the block in buffer i becomes v. */
  lemma Recounted(bufs: seq<Buf>, cnt: Counts, i: int, n: int)
    requires Tally(bufs, cnt) && 0 <= i < |bufs| && bufs[i].dev == ROOTDEV
    ensures Tally(bufs[i := bufs[i].(refcnt := (bufs[i].refcnt + n) % UINT)], Plus(cnt, bufs[i].blockno, n))
  {
    var b := bufs[i].blockno;
    var bufs', cnt' := bufs[i := bufs[i].(refcnt := (bufs[i].refcnt + n) % UINT)], Plus(cnt, b, n);
    CountAt(bufs, cnt, i);
    forall j | 0 <= j < |bufs'| ensures InUse(bufs'[j], cnt') {
      assert InUse(bufs[j], cnt);
    }
    forall c | c in cnt' ensures 0 < cnt'[c] < UINT && Holds(bufs', c, cnt'[c]) {
      if c == b {
        assert KeyOf(bufs'[i]) == (ROOTDEV, b);
      } else {
        var j :| 0 <= j < |bufs| && KeyOf(bufs[j]) == (ROOTDEV, c) && bufs[j].refcnt == cnt[c];
        assert bufs'[j] == bufs[j];
      }
    }
  }

  lemma CountAt(bufs: seq<Buf>, cnt: Counts, i: int)
    requires Tally(bufs, cnt) && 0 <= i < |bufs| && bufs[i].dev == ROOTDEV
    ensures bufs[i].refcnt == At(cnt, bufs[i].blockno)
  {
    var b := bufs[i].blockno;
    assert InUse(bufs[i], cnt);
    if b in cnt {
      var j :| 0 <= j < |bufs| && KeyOf(bufs[j]) == (ROOTDEV, b) && bufs[j].refcnt == cnt[b];
      assert j == i;
    }
  }

  lemma CountedCached(bufs: seq<Buf>, cnt: Counts, b: int)
    requires Tally(bufs, cnt) && b in cnt
    ensures exists i :: 0 <= i < |bufs| && KeyOf(bufs[i]) == (ROOTDEV, b)
  {
    assert Holds(bufs, b, cnt[b]);
  }

  /** A free buffer is recycled for block b, which is not cached. */
  lemma Renewed(bufs: seq<Buf>, cnt: Counts, i: int, b: int)
    requires Tally(bufs, cnt) && 0 <= i < |bufs| && bufs[i].refcnt == 0
    requires forall j :: 0 <= j < |bufs| ==> KeyOf(bufs[j]) != (ROOTDEV, b)
    ensures Tally(Recycled(bufs, i, ROOTDEV, b), Plus(cnt, b, 1)) && b !in cnt
  {
    var bufs', cnt' := Recycled(bufs, i, ROOTDEV, b), Plus(cnt, b, 1);
    forall j | 0 <= j < |bufs'| ensures InUse(bufs'[j], cnt') {
      assert InUse(bufs[j], cnt);
    }
    forall c | c in cnt' ensures 0 < cnt'[c] < UINT && Holds(bufs', c, cnt'[c]) {
      if c == b {
        assert KeyOf(bufs'[i]) == (ROOTDEV, b);
      } else {
        var j :| 0 <= j < |bufs| && KeyOf(bufs[j]) == (ROOTDEV, c) && bufs[j].refcnt == cnt[c];
        assert bufs'[j] == bufs[j];
      }
    }
  }

  // ----- counts of many blocks

  function Elems(bs: seq<int>): set<int> { set b | b in bs }

  /** n for the blocks of bs, 0 for others. */
  function Share(b: int, bs: seq<int>, n: int): int { if b in bs then n else 0 }

  /** Each block of bs counted n times more, modulo 2^32. */
  function PlusAll(cnt: Counts, bs: seq<int>, n: int): Counts {
    map b | b in cnt.Keys + Elems(bs) && (At(cnt, b) + Share(b, bs, n)) % UINT != 0 ::
      (At(cnt, b) + Share(b, bs, n)) % UINT
  }

  ghost predicate Proper(cnt: Counts) {
    forall b :: b in cnt ==> 0 < cnt[b] < UINT
  }

  /** One more does not wrap. */
  ghost predicate Fewer(cnt: Counts) {
    forall b :: b in cnt ==> 0 < cnt[b] < UINT - 1
  }

  lemma PlusAt(cnt: Counts, b: int, n: int, c: int)
    requires Proper(cnt)
    ensures Proper(Plus(cnt, b, n))
    ensures At(Plus(cnt, b, n), c) == if c == b then (At(cnt, b) + n) % UINT else At(cnt, c)
    ensures c in Plus(cnt, b, n) <==> At(Plus(cnt, b, n), c) != 0
  {
  }

  lemma PlusAllAt(cnt: Counts, bs: seq<int>, n: int, c: int)
    requires Proper(cnt)
    ensures Proper(PlusAll(cnt, bs, n)) && At(PlusAll(cnt, bs, n), c) == (At(cnt, c) + Share(c, bs, n)) % UINT
    ensures c in PlusAll(cnt, bs, n) <==> At(PlusAll(cnt, bs, n), c) != 0
  {
  }

  lemma AtBound(cnt: Counts, c: int)
    requires Proper(cnt)
    ensures 0 <= At(cnt, c) < UINT && (c in cnt <==> At(cnt, c) != 0)
  {
  }

  lemma ShareOf(c: int, bs: seq<int>, n: int)
    ensures Share(c, bs, n) == if c in bs then n else 0
  {
  }

  lemma ModBack(a: int)
    requires 0 <= a < UINT
    ensures a % UINT == a && ((a + 1) % UINT - 1) % UINT == a && ((a - 1) % UINT + 1) % UINT == a
  {
  }

  lemma SameCounts(x: Counts, y: Counts)
    requires Proper(x) && Proper(y) && forall b :: At(x, b) == At(y, b)
    ensures x == y
  {
    forall b ensures b in x <==> b in y {
      assert At(x, b) == At(y, b);
    }
    forall b | b in x ensures x[b] == y[b] {
      assert At(x, b) == At(y, b);
    }
  }

  lemma PlusMinus(cnt: Counts, b: int)
    requires Proper(cnt)
    ensures Plus(Plus(cnt, b, 1), b, -1) == cnt
  {
    var x := Plus(cnt, b, 1);
    PlusAt(cnt, b, 1, b);
    forall c ensures At(Plus(x, b, -1), c) == At(cnt, c) {
      PlusAt(cnt, b, 1, c);
      PlusAt(x, b, -1, c);
    }
    PlusAt(x, b, -1, b);
    SameCounts(Plus(x, b, -1), cnt);
  }

  lemma PlusNew(cnt: Counts, b: int)
    requires b !in cnt
    ensures |Plus(cnt, b, 1)| == |cnt| + 1
  {
  }

  /** One block more of a list without repetitions. */
  lemma PlusNext(cnt: Counts, bs: seq<int>, t: int, n: int)
    requires Proper(cnt) && Distinct(bs) && 0 <= t < |bs|
    ensures Plus(PlusAll(cnt, bs[..t], n), bs[t], n) == PlusAll(cnt, bs[..t + 1], n)
  {
    hide *;
    var x, y := PlusAll(cnt, bs[..t], n), PlusAll(cnt, bs[..t + 1], n);
    PlusAllAt(cnt, bs[..t], n, bs[t]);
    PlusAllAt(cnt, bs[..t + 1], n, bs[t]);
    PlusAt(x, bs[t], n, bs[t]);
    forall c ensures At(Plus(x, bs[t], n), c) == At(y, c) {
      PlusNextAt(cnt, bs, t, n, c);
    }
    SameCounts(Plus(x, bs[t], n), y);
  }

  lemma PlusNextAt(cnt: Counts, bs: seq<int>, t: int, n: int, c: int)
    requires Proper(cnt) && Distinct(bs) && 0 <= t < |bs|
    ensures At(Plus(PlusAll(cnt, bs[..t], n), bs[t], n), c) == At(PlusAll(cnt, bs[..t + 1], n), c)
  {
    hide *;
    var x := PlusAll(cnt, bs[..t], n);
    PlusAllAt(cnt, bs[..t], n, c);
    PlusAllAt(cnt, bs[..t + 1], n, c);
    PlusAt(x, bs[t], n, c);
    PrefixIn(bs, t, c, n);
    AtBound(cnt, c);
    if c == bs[t] {
      ModBack(At(cnt, c));
      assert At(x, c) == At(cnt, c);
    }
  }

  lemma PrefixIn(bs: seq<int>, t: int, c: int, n: int)
    requires Distinct(bs) && 0 <= t < |bs|
    ensures Share(c, bs[..t + 1], n) == if c == bs[t] then n else Share(c, bs[..t], n)
    ensures c == bs[t] ==> Share(c, bs[..t], n) == 0
  {
    assert bs[..t + 1] == bs[..t] + [bs[t]];
  }

  lemma PlusNone(cnt: Counts, n: int)
    requires Proper(cnt)
    ensures PlusAll(cnt, [], n) == cnt
  {
    forall c ensures At(PlusAll(cnt, [], n), c) == At(cnt, c) {
      PlusAllAt(cnt, [], n, c);
    }
    PlusAllAt(cnt, [], n, 0);
    SameCounts(PlusAll(cnt, [], n), cnt);
  }

  lemma PinUnpinAt(cnt: Counts, bs: seq<int>, c: int)
    requires Proper(cnt)
    ensures At(PlusAll(PlusAll(cnt, bs, 1), bs, -1), c) == At(cnt, c)
  {
    hide *;
    var x := PlusAll(cnt, bs, 1);
    PlusAllAt(cnt, bs, 1, c);
    PlusAllAt(x, bs, -1, c);
    AtBound(cnt, c);
    ShareOf(c, bs, 1);
    ShareOf(c, bs, -1);
    ModBack(At(cnt, c));
  }

  /** Pinning and unpinning every block of a list. */
  lemma PinUnpin(cnt: Counts, bs: seq<int>)
    requires Proper(cnt)
    ensures PlusAll(PlusAll(cnt, bs, 1), bs, -1) == cnt
  {
    hide *;
    var x := PlusAll(cnt, bs, 1);
    PlusAllAt(cnt, bs, 1, 0);
    forall c ensures At(PlusAll(x, bs, -1), c) == At(cnt, c) {
      PinUnpinAt(cnt, bs, c);
    }
    PlusAllAt(x, bs, -1, 0);
    SameCounts(PlusAll(x, bs, -1), cnt);
  }

  // ----- when there are buffers enough

  /** A free buffer for a log block and then one for the home block b. */
  predicate Room(cnt: Counts, b: int, h: int) {
    |cnt| < h && (b in cnt || |cnt| + 1 < h)
  }

  /** install_trans finds its buffers. */
  ghost predicate Enough(cnt: Counts, bs: seq<int>, h: int) {
    forall t :: 0 <= t < |bs| ==> Room(PlusAll(cnt, bs[..t], -1), bs[t], h)
  }

  lemma MinusNone(bs: seq<int>)
    ensures PlusAll(map[], bs, -1) == map b | b in Elems(bs) :: UINT - 1
  {
    forall b ensures (0 + Share(b, bs, -1)) % UINT == if b in bs then UINT - 1 else 0 {
    }
  }

  lemma {:induction false} ElemsCard(bs: seq<int>)
    requires Distinct(bs)
    ensures |Elems(bs)| == |bs|
    decreases |bs|
  {
    if bs == [] {
      assert Elems(bs) == {};
    } else {
      var n := |bs| - 1;
      ElemsCard(bs[..n]);
      assert bs == bs[..n] + [bs[n]];
      assert Elems(bs) == Elems(bs[..n]) + {bs[n]};
    }
  }

  /** Recovery, which pins nothing, takes a buffer for good for each block. */
  lemma EnoughToRecover(bs: seq<int>, h: int)
    requires Distinct(bs)
    ensures Enough(map[], bs, h) <==> bs == [] || |bs| < h
  {
    forall t | 0 <= t < |bs|
      ensures Room(PlusAll(map[], bs[..t], -1), bs[t], h) <==> t + 1 < h
    {
      MinusNone(bs[..t]);
      ElemsCard(bs[..t]);
      var x := PlusAll(map[], bs[..t], -1);
      assert x.Keys == Elems(bs[..t]);
      assert |x| == t;
      assert bs[t] !in bs[..t];
    }
    if bs != [] && |bs| >= h {
      assert !Room(PlusAll(map[], bs[..|bs| - 1], -1), bs[|bs| - 1], h);
    }
  }

  lemma MinusKeys(cnt: Counts, bs: seq<int>, b: int)
    requires Proper(cnt) && (b in bs ==> b in cnt)
    ensures b in PlusAll(cnt, bs, -1) ==> b in cnt
    ensures b in cnt && b !in bs ==> b in PlusAll(cnt, bs, -1)
  {
    hide *;
    PlusAllAt(cnt, bs, -1, b);
    AtBound(cnt, b);
    ShareOf(b, bs, -1);
    ModBack(At(cnt, b));
  }

  lemma MinusSome(cnt: Counts, bs: seq<int>, t: int)
    requires Proper(cnt) && Distinct(bs) && 0 <= t < |bs| && forall b :: b in bs ==> b in cnt
    ensures |PlusAll(cnt, bs[..t], -1)| <= |cnt| && bs[t] in PlusAll(cnt, bs[..t], -1)
  {
    var x := PlusAll(cnt, bs[..t], -1);
    assert bs[t] in bs && bs[t] !in bs[..t];
    hide *;
    MinusKeys(cnt, bs[..t], bs[t]);
    forall b | b in x ensures b in cnt {
      assert b in bs[..t] ==> b in bs;
      MinusKeys(cnt, bs[..t], b);
    }
    FewerKeys(x, cnt);
  }

  lemma FewerKeys(x: Counts, y: Counts)
    requires x.Keys <= y.Keys
    ensures |x| <= |y|
  {
    Smaller(x.Keys, y.Keys);
    assert |x| == |x.Keys| && |y| == |y.Keys|;
  }

  /** A commit has every block in a buffer already. */
  lemma EnoughToCommit(cnt: Counts, bs: seq<int>, h: int)
    requires Proper(cnt) && Distinct(bs) && forall b :: b in bs ==> b in cnt
    ensures Enough(cnt, bs, h) <==> bs == [] || |cnt| < h
  {
    hide PlusAll;
    forall t | 0 <= t < |bs|
      ensures |PlusAll(cnt, bs[..t], -1)| <= |cnt| && bs[t] in PlusAll(cnt, bs[..t], -1)
    {
      MinusSome(cnt, bs, t);
    }
    if bs != [] {
      PlusNone(cnt, -1);
      assert bs[..0] == [];
      assert Enough(cnt, bs, h) ==> Room(PlusAll(cnt, bs[..0], -1), bs[0], h);
    }
  }

  // ----- the log

  lemma RingCard(c: Cache)
    requires c.Ring()
    ensures |c.bufs| == c.h
  {
  }

  class Log {
    const c: Cache
    const start: int
    const size: int              // blocks of the log region, with the header
    var lh: seq<int>             // log.lh.block[0..log.lh.n]
    ghost var cnt: Counts        // the counts of the buffers
    ghost var users: Counts      // the references that callers of bread hold

    ghost predicate Home(b: int) { !(start <= b < start + size) }

    ghost predicate Tallied()
      reads this, c
    {
      c.Ring() && Tally(c.bufs, cnt) && Proper(cnt)
    }

    ghost predicate Listed()
      reads this`lh
    {
      && Distinct(lh) && (|lh| < size || lh == [])
      && forall i :: 0 <= i < |lh| ==> Home(lh[i])
    }

    /** The log's own blocks are used inside the methods below only. */
    ghost predicate Valid()
      reads this, c
    {
      Tallied() && Listed() && 0 < size && Apart(cnt)
    }

    /** Only home blocks. */
    ghost predicate Apart(k: Counts) {
      forall b :: b in k ==> Home(b)
    }

    /** A buffer's count is the references of its users and one for the log if it is listed. */
    ghost predicate Balanced()
      reads this
    {
      cnt == PlusAll(users, lh, 1) && Fewer(users) && Apart(users)
    }

    /** binit and initlog, up to recovery. */
    constructor (nbuf: nat, start: int, size: int)
      requires 0 < size
      ensures fresh(c) && Valid() && c.h == nbuf && this.start == start && this.size == size
      ensures lh == [] && cnt == map[] && users == map[] && Balanced()
    {
      c := new Cache(nbuf, map[]);
      this.start, this.size, lh, cnt, users := start, size, [], map[], map[];
      new;
      PlusNone(map[], 1);
      c.RingSize();
    }

    /** bread: ok is false where bget panics. */
    method Bread(b: int) returns (ok: bool, i: int)
      requires Tallied()
      modifies this`cnt, c
      ensures Tallied() && |c.bufs| == |old(c.bufs)| == c.h
      ensures ok <==> b in old(cnt) || |old(cnt)| < c.h
      ensures cnt == if ok then Plus(old(cnt), b, 1) else old(cnt)
      ensures ok ==> 0 <= i < c.h && KeyOf(c.bufs[i]) == (ROOTDEV, b) && c.bufs[i].refcnt == At(cnt, b)
      ensures forall j :: 0 <= j < c.h && old(c.bufs)[j].refcnt != 0 ==> KeyOf(c.bufs[j]) == KeyOf(old(c.bufs)[j])
    {
      Spare(c.bufs, cnt);
      hide Tally, Cache.Ring;
      RingCard(c);
      if b in cnt {
        CountedCached(c.bufs, cnt, b);
      }
      ghost var bufs, hit := c.bufs, c.Cached((ROOTDEV, b));
      ok, i := c.Reference(ROOTDEV, b);
      RingCard(c);
      if ok {
        if hit {
          Recounted(bufs, cnt, i, 1);
          CountAt(bufs, cnt, i);
        } else {
          Renewed(bufs, cnt, i, b);
        }
        PlusAt(cnt, b, 1, b);
        cnt := Plus(cnt, b, 1);
      }
    }

    /** The block in buffer i is ROOTDEV's block b. */
    ghost predicate Has(i: int, b: int)
      reads this, c
    {
      0 <= i < c.h == |c.bufs| && KeyOf(c.bufs[i]) == (ROOTDEV, b)
    }

    ghost predicate SameBlocks(bufs: seq<Buf>, bufs': seq<Buf>) {
      |bufs'| == |bufs| && forall j :: 0 <= j < |bufs| ==> KeyOf(bufs'[j]) == KeyOf(bufs[j])
    }

    method Brelse(i: int, b: int)
      requires Tallied() && Has(i, b)
      modifies this`cnt, c
      ensures Tallied() && SameBlocks(old(c.bufs), c.bufs) && cnt == Plus(old(cnt), b, -1)
    {
      hide Tally, Cache.Ring;
      RingCard(c);
      Recounted(c.bufs, cnt, i, -1);
      assert Unref(c.bufs[i].refcnt) == (c.bufs[i].refcnt - 1) % UINT;
      PlusAt(cnt, b, -1, b);
      c.Unreference(i);
      cnt := Plus(cnt, b, -1);
    }

    method Bunpin(i: int, b: int)
      requires Tallied() && Has(i, b)
      modifies this`cnt, c
      ensures Tallied() && SameBlocks(old(c.bufs), c.bufs) && cnt == Plus(old(cnt), b, -1)
    {
      hide Tally, Cache.Ring;
      RingCard(c);
      Recounted(c.bufs, cnt, i, -1);
      assert Unref(c.bufs[i].refcnt) == (c.bufs[i].refcnt - 1) % UINT;
      PlusAt(cnt, b, -1, b);
      c.CountDown(i);
      cnt := Plus(cnt, b, -1);
    }

    method Bpin(i: int, b: int)
      requires Tallied() && Has(i, b)
      modifies this`cnt, c
      ensures Tallied() && SameBlocks(old(c.bufs), c.bufs) && cnt == Plus(old(cnt), b, 1)
    {
      hide Tally, Cache.Ring;
      RingCard(c);
      Recounted(c.bufs, cnt, i, 1);
      PlusAt(cnt, b, 1, b);
      c.CountUp(i);
      cnt := Plus(cnt, b, 1);
    }

    /** The header block is read, and written in write_head, and released. */
    method UseHeader() returns (ok: bool)
      requires Tallied() && start !in cnt
      modifies this`cnt, c
      ensures ok <==> |old(cnt)| < c.h
      ensures ok ==> Tallied() && cnt == old(cnt)
    {
      hide Tally, Cache.Ring;
      var i;
      ok, i := Bread(start);
      if ok {
        PlusMinus(old(cnt), start);
        Brelse(i, start);
      }
    }

    /** One turn of write_log: from a listed block's buffer to that of a log block. */
    method LogOne(tail: int) returns (ok: bool)
      requires Tallied() && 0 <= tail < |lh| && start + tail + 1 !in cnt && start + tail + 1 != lh[tail]
      modifies this`cnt, c
      ensures ok <==> Room(old(cnt), lh[tail], c.h)
      ensures ok ==> Tallied() && cnt == old(cnt)
    {
      hide Tally, Cache.Ring;
      ghost var k := cnt;
      var s, b := start + tail + 1, lh[tail];
      var to, from;
      ok, to := Bread(s);
      if !ok {
        return;
      }
      PlusNew(k, s);
      PlusAt(k, s, 1, b);
      ok, from := Bread(b);
      if !ok {
        return;
      }
      PlusMinus(Plus(k, s, 1), b);
      PlusMinus(k, s);
      Brelse(from, b);
      Brelse(to, s);
    }

    /** One turn of install_trans. */
    method InstallOne(tail: int) returns (ok: bool)
      requires Tallied() && 0 <= tail < |lh| && start + tail + 1 !in cnt && start + tail + 1 != lh[tail]
      modifies this`cnt, c
      ensures ok <==> Room(old(cnt), lh[tail], c.h)
      ensures ok ==> Tallied() && cnt == Plus(old(cnt), lh[tail], -1)
    {
      hide Tally, Cache.Ring;
      ghost var k := cnt;
      var s, b := start + tail + 1, lh[tail];
      var lbuf, dbuf;
      ok, lbuf := Bread(s);
      if !ok {
        return;
      }
      PlusNew(k, s);
      PlusAt(k, s, 1, b);
      ok, dbuf := Bread(b);
      if !ok {
        return;
      }
      PlusMinus(Plus(k, s, 1), b);
      PlusMinus(k, s);
      Bunpin(dbuf, b);
      Brelse(lbuf, s);
      Brelse(dbuf, b);
    }

    method WriteLog() returns (ok: bool)
      requires Valid()
      modifies this`cnt, c
      ensures ok <==> forall t :: 0 <= t < |lh| ==> Room(old(cnt), lh[t], c.h)
      ensures ok ==> Tallied() && cnt == old(cnt)
    {
      hide Tally, Cache.Ring, Room;
      for tail := 0 to |lh|
        invariant Tallied() && cnt == old(cnt) && forall t :: 0 <= t < tail ==> Room(old(cnt), lh[t], c.h)
      {
        assert !Home(start + tail + 1);
        ok := LogOne(tail);
        if !ok {
          return;
        }
      }
      ok := true;
    }

    lemma SlotFree(k: Counts, tail: int)
      requires Listed() && 0 <= tail < |lh| && Apart(k)
      ensures start + tail + 1 !in PlusAll(k, lh[..tail], -1) && start + tail + 1 != lh[tail]
    {
      assert !Home(start + tail + 1);
    }

    /** Every listed block ends with a count one lower, modulo 2^32, than it had. */
    method InstallTrans() returns (ok: bool)
      requires Valid()
      modifies this`cnt, c
      ensures ok <==> Enough(old(cnt), lh, c.h)
      ensures ok ==> Tallied() && cnt == PlusAll(old(cnt), lh, -1)
    {
      hide Tally, Cache.Ring, Room, PlusAll, Plus;
      ghost var k := cnt;
      PlusNone(k, -1);
      assert lh[..0] == [];
      for tail := 0 to |lh|
        invariant Tallied() && cnt == PlusAll(k, lh[..tail], -1)
        invariant forall t :: 0 <= t < tail ==> Room(PlusAll(k, lh[..t], -1), lh[t], c.h)
      {
        SlotFree(k, tail);
        ok := InstallOne(tail);
        if !ok {
          return;
        }
        PlusNext(k, lh, tail, -1);
      }
      assert lh[..|lh|] == lh;
      ok := true;
    }

    // ----- what callers see

    /** bread by a caller. */
    method Open(b: int) returns (ok: bool, i: int)
      requires Valid() && Home(b) && Proper(users) && Apart(users) && At(users, b) + 2 < UINT
      modifies this`cnt, this`users, c
      ensures Valid() && Proper(users) && Apart(users) && (old(Balanced()) ==> Balanced())
      ensures ok <==> b in old(cnt) || |old(cnt)| < c.h
      ensures !ok ==> cnt == old(cnt) && users == old(users)
      ensures ok ==> cnt == Plus(old(cnt), b, 1) && users == Plus(old(users), b, 1) && Has(i, b)
    {
      hide Tally, Cache.Ring, PlusAll, Listed, Plus, Proper, Fewer, Apart;
      ghost var k, u := cnt, users;
      ok, i := Bread(b);
      if ok {
        AtBound(u, b);
        UsePinned(u, b, 1, lh);
        PlusApart(k, b, 1);
        PlusApart(u, b, 1);
        PlusFewer(u, b, 1);
        users := Plus(users, b, 1);
      }
    }

    lemma PlusApart(k: Counts, b: int, n: int)
      requires Apart(k) && Home(b)
      ensures Apart(Plus(k, b, n))
    {
    }

    /** brelse by a caller. */
    method Close(i: int, b: int)
      requires Valid() && Has(i, b) && Home(b) && Proper(users) && Apart(users) && b in users
      modifies this`cnt, this`users, c
      ensures Valid() && Proper(users) && Apart(users) && (old(Balanced()) ==> Balanced())
      ensures cnt == Plus(old(cnt), b, -1) && users == Plus(old(users), b, -1)
    {
      hide Tally, Cache.Ring, PlusAll, Listed, Plus, Proper, Fewer, Apart;
      ghost var k, u := cnt, users;
      AtBound(u, b);
      Brelse(i, b);
      UsePinned(u, b, -1, lh);
      PlusApart(k, b, -1);
      PlusApart(u, b, -1);
      PlusFewer(u, b, -1);
      users := Plus(users, b, -1);
    }

    /** log_write of a block in the caller's buffer i, past the tests that panic. */
    method LogWrite(i: int, b: int)
      requires Valid() && Has(i, b) && Home(b) && Proper(users) && b in users && |lh| + 1 < size
      modifies this`cnt, this`lh, c
      ensures Valid() && (old(Balanced()) ==> Balanced())
      ensures lh == if b in old(lh) then old(lh) else old(lh) + [b]
      ensures cnt == if b in old(lh) then old(cnt) else Plus(old(cnt), b, 1)
      ensures SameBlocks(old(c.bufs), c.bufs)
    {
      hide Tally, Cache.Ring, PlusAll;
      var k := 0;
      while k < |lh| && lh[k] != b
        invariant 0 <= k <= |lh| && b !in lh[..k]
      {
        k := k + 1;
      }
      if k == |lh| {
        assert lh[..k] == lh;
        Bpin(i, b);
        lh := lh + [b];
        assert lh[..k] == old(lh) && lh[..k + 1] == lh;
        PlusNext(users, lh, k, 1);
      }
    }

    /** A commit when nobody outside holds anything but its own references: it completes if and only if a buffer is
        free, and gives every count back as it was before the log's pins. */
    method Commit() returns (ok: bool)
      requires Valid() && Balanced()
      modifies this`cnt, this`lh, c
      ensures |old(cnt)| == |Elems(old(lh)) + users.Keys|
      ensures ok <==> old(lh) == [] || |old(cnt)| < c.h
      ensures ok ==> Valid() && Balanced() && lh == [] && cnt == users
      ensures !ok ==> lh == old(lh)
    {
      hide Tally, Cache.Ring, PlusAll, Listed, Room, Enough, Apart, Proper, Elems, Fewer;
      CommitReady();
      if |lh| > 0 {
        ok := WriteLog();
        if !ok {
          return;
        }
        ok := UseHeader();
        if !ok {
          return;
        }
        ok := InstallTrans();
        if !ok {
          return;
        }
        lh := [];
        Emptied();
        ok := UseHeader();
      } else {
        ok := true;
      }
    }

    lemma CommitReady()
      requires Valid() && Balanced()
      ensures Tallied() && start !in cnt && start !in users && |cnt| == |Elems(lh) + users.Keys| && |users| <= |cnt|
      ensures Enough(cnt, lh, c.h) <==> lh == [] || |cnt| < c.h
      ensures (forall t :: 0 <= t < |lh| ==> Room(cnt, lh[t], c.h)) <==> lh == [] || |cnt| < c.h
      ensures PlusAll(cnt, lh, -1) == users && (lh == [] ==> cnt == users)
    {
      CommitApart();
      CommitPinned();
      hide Tally, Cache.Ring, PlusAll, Listed, Enough, Apart, Elems, Fewer;
      PinnedCard(users, lh);
      Smaller(users.Keys, Elems(lh) + users.Keys);
      PlusNone(users, 1);
      EnoughToCommit(cnt, lh, c.h);
      PinUnpin(users, lh);
    }

    lemma CommitApart()
      requires Valid() && Balanced()
      ensures start !in cnt && start !in users && Distinct(lh) && Proper(users)
    {
      assert !Home(start);
    }

    lemma CommitPinned()
      requires Valid() && Balanced()
      ensures forall b :: b in lh ==> b in cnt
    {
      hide PlusAll, Tally, Cache.Ring;
      forall b | b in lh ensures b in cnt {
        PlusAllAt(users, lh, 1, b);
        AtBound(users, b);
      }
    }

    lemma Emptied()
      requires Tallied() && cnt == users && lh == [] && 0 < size && Fewer(users) && Apart(users)
      ensures Valid() && Balanced()
    {
      PlusNone(users, 1);
    }

    /** recover_from_log of a log on disk that lists blocks, when nothing is in use: it completes if and only if there
        are more buffers than blocks, and leaves every listed block with the largest count. */
    method Recover(blocks: seq<int>) returns (ok: bool)
      requires Valid() && Balanced() && cnt == map[] == users && lh == []
      requires Distinct(blocks) && |blocks| < size && forall i :: 0 <= i < |blocks| ==> Home(blocks[i])
      modifies this`cnt, this`lh, c
      ensures ok <==> |blocks| < c.h
      ensures ok ==> Valid() && lh == [] && cnt == map b | b in Elems(blocks) :: UINT - 1
      ensures ok ==> (Balanced() <==> blocks == [])
    {
      hide Tally, Cache.Ring, PlusAll;
      ok := UseHeader();
      if !ok {
        return;
      }
      lh := blocks;
      EnoughToRecover(blocks, c.h);
      MinusNone(blocks);
      ok := InstallTrans();
      if !ok {
        return;
      }
      lh := [];
      ElemsCard(blocks);
      assert cnt.Keys == Elems(blocks);
      assert !Home(start);
      ok := UseHeader();
      PlusNone(users, 1);
      if blocks != [] {
        assert blocks[0] in cnt;
      }
    }
  }

  lemma ModSwap(a: int, i: int, n: int)
    requires 0 <= a < UINT && 0 <= i <= 1 && (n == 1 || n == -1)
    ensures ((a + i) % UINT + n) % UINT == ((a + n) % UINT + i) % UINT
  {
  }

  lemma PlusFewer(users: Counts, b: int, n: int)
    requires Proper(users) && 0 <= At(users, b) + n < UINT - 1
    ensures Proper(Plus(users, b, n)) && (Fewer(users) ==> Fewer(Plus(users, b, n)))
  {
  }

  lemma UsePinned(users: Counts, b: int, n: int, lh: seq<int>)
    requires Proper(users) && (n == 1 || n == -1)
    ensures Plus(PlusAll(users, lh, 1), b, n) == PlusAll(Plus(users, b, n), lh, 1)
  {
    hide *;
    var x, y := PlusAll(users, lh, 1), Plus(users, b, n);
    PlusAllAt(users, lh, 1, b);
    PlusAt(users, b, n, b);
    forall c ensures At(Plus(x, b, n), c) == At(PlusAll(y, lh, 1), c) {
      PlusAllAt(users, lh, 1, c);
      PlusAt(users, b, n, c);
      PlusAt(x, b, n, c);
      PlusAllAt(y, lh, 1, c);
      AtBound(users, c);
      ShareOf(c, lh, 1);
      if c == b {
        ModSwap(At(users, c), Share(c, lh, 1), n);
      }
    }
    PlusAt(x, b, n, b);
    PlusAllAt(y, lh, 1, b);
    SameCounts(Plus(x, b, n), PlusAll(y, lh, 1));
  }

  lemma PinnedCard(users: Counts, lh: seq<int>)
    requires Fewer(users)
    ensures |PlusAll(users, lh, 1)| == |Elems(lh) + users.Keys|
  {
    var x := PlusAll(users, lh, 1);
    forall b ensures b in x <==> b in Elems(lh) + users.Keys {
      PlusAllAt(users, lh, 1, b);
    }
    assert x.Keys == Elems(lh) + users.Keys;
    assert |x| == |x.Keys|;
  }

  lemma Smaller(x: set<int>, y: set<int>)
    requires x <= y
    ensures |x| <= |y|
  {
    assert y == x + (y - x);
  }

  // ----- what recovery leaves

  lemma OneMore(cnt: Counts, bs: seq<int>, b: int)
    requires cnt.Keys == Elems(bs) && b !in bs
    ensures Plus(cnt, b, 1).Keys == Elems(bs + [b])
  {
  }

  lemma OneUser(users: Counts, b: int)
    requires b !in users
    ensures Plus(users, b, 1).Keys == users.Keys + {b}
  {
  }

  /** As many blocks are read as there are buffers, when none is in use. */
  method FillUp(log: Log, others: seq<int>) returns (ok: bool)
    requires log.Valid() && Proper(log.users) && log.Apart(log.users) && log.cnt == map[]
    requires |others| == log.c.h && Distinct(others)
    requires forall i :: 0 <= i < |others| ==> log.Home(others[i]) && others[i] !in log.users
    modifies log`cnt, log`users, log.c
    ensures ok && log.Valid() && log.cnt.Keys == Elems(others)
    ensures forall b :: b in old(log.users) ==> b in log.users
  {
    hide Tally, Cache.Ring, Log.Listed, Plus, Log.Apart, Log.Balanced, Elems;
    ok := true;
    assert others[..0] == [] && log.cnt.Keys == Elems([]) by { ElemsCard([]); }
    for i := 0 to |others|
      invariant ok && log.Valid() && Proper(log.users) && log.Apart(log.users) && log.cnt.Keys == Elems(others[..i])
      invariant forall j :: i <= j < |others| ==> others[j] !in log.users
      invariant forall b :: b in old(log.users) ==> b in log.users
    {
      var z;
      ElemsCard(others[..i]);
      ghost var cnt, users := log.cnt, log.users;
      assert |cnt| == |cnt.Keys|;
      ok, z := log.Open(others[i]);
      assert others[..i + 1] == others[..i] + [others[i]];
      OneMore(cnt, others[..i], others[i]);
      OneUser(users, others[i]);
    }
    assert others[..|others|] == others;
  }

  /** A caller reads the block b that was recovered and, if logged, changes it, logs it and lets go: then the count of
      its buffer is 0. */
  method UseRecovered(log: Log, b: int, logged: bool) returns (ok: bool, y: int)
    requires log.Valid() && log.Home(b) && log.cnt == map[b := UINT - 1] && log.users == map[] && log.lh == []
    requires 2 <= log.size
    modifies log, log.c
    ensures ok && log.Valid() && log.cnt == map[] && Proper(log.users) && log.Apart(log.users)
    ensures if logged then log.lh == [b] && log.users == map[] else log.users == map[b := 1] && 0 <= y < log.c.h
  {
    hide Tally, Cache.Ring, Log.Listed, Log.Balanced;
    ok, y := log.Open(b);
    assert log.users == map[b := 1] && log.cnt == map[];
    if logged {
      log.LogWrite(y, b);
      assert log.cnt == map[b := 1];
      log.Close(y, b);
    }
  }

  /** After a recovery of block b a caller reads b and, if logged, changes it, logs it and lets go; else it keeps it.
      Then as many other blocks are read as there are buffers.  None is refused and b is in no buffer: the caller's
      buffer is another block's, or the logged change is lost. */
  method RecoveryLosesBuffer(nbuf: nat, start: int, size: int, b: int, others: seq<int>, logged: bool)
    returns (log: Log, y: int, ok: bool)
    requires nbuf >= 2 && size >= 2 && |others| == nbuf && Distinct(others) && b !in others
    requires !(start <= b < start + size) && forall i :: 0 <= i < |others| ==> !(start <= others[i] < start + size)
    ensures ok && log.Valid() && log.c.h == nbuf && !log.c.Cached((ROOTDEV, b))
    ensures if logged then log.lh == [b] else b in log.users && 0 <= y < nbuf
  {
    hide Tally, Cache.Ring, Log.Listed, Log.Balanced, Log.Apart, Proper, Elems;
    log := new Log(nbuf, start, size);
    ok := log.Recover([b]);
    OneElem(b);
    ok, y := UseRecovered(log, b, logged);
    ok := FillUp(log, others);
    ElemsCard(others);
    InElems(others, b);
    RingCard(log.c);
    assert |log.cnt| == |log.cnt.Keys|;
    NoneLeft(log.c.bufs, log.cnt, b);
  }

  lemma OneElem(b: int)
    ensures (map c | c in Elems([b]) :: UINT - 1) == map[b := UINT - 1]
  {
  }

  lemma InElems(bs: seq<int>, b: int)
    ensures b in Elems(bs) <==> b in bs
  {
  }

  lemma NoneLeft(bufs: seq<Buf>, cnt: Counts, b: int)
    requires Tally(bufs, cnt) && |cnt| >= |bufs| && b !in cnt
    ensures forall i :: 0 <= i < |bufs| ==> KeyOf(bufs[i]) != (ROOTDEV, b)
  {
    Spare(bufs, cnt);
    forall i | 0 <= i < |bufs| ensures KeyOf(bufs[i]) != (ROOTDEV, b) {
      assert InUse(bufs[i], cnt);
    }
  }

  // ----- a full log

  lemma Pins(lh: seq<int>)
    requires Distinct(lh)
    ensures PlusAll(map[], lh, 1).Keys == Elems(lh) && |PlusAll(map[], lh, 1)| == |lh|
  {
    PinnedCard(map[], lh);
    ElemsCard(lh);
    assert Elems(lh) + {} == Elems(lh);
    forall b ensures b in PlusAll(map[], lh, 1) <==> b in Elems(lh) {
      PlusAllAt(map[], lh, 1, b);
    }
  }

  /** A caller reads block i of blocks, changes it, logs it and lets go. */
  method LogNext(log: Log, blocks: seq<int>, i: int) returns (ok: bool)
    requires log.Valid() && log.Balanced() && 0 <= i < |blocks| && Distinct(blocks) && log.Home(blocks[i])
    requires log.lh == blocks[..i] && log.users == map[] && i < log.c.h && i + 1 < log.size
    modifies log, log.c
    ensures ok && log.Valid() && log.Balanced() && log.lh == blocks[..i + 1] && log.users == map[]
  {
    hide Tally, Cache.Ring, Log.Listed, PlusAll, Plus, Elems;
    Pins(blocks[..i]);
    PlusMinus(map[], blocks[i]);
    OneUser(map[], blocks[i]);
    var y;
    ok, y := log.Open(blocks[i]);
    log.LogWrite(y, blocks[i]);
    log.Close(y, blocks[i]);
  }

  /** From boot with an empty log, a caller changes and logs one block after another, as many as there are buffers, and
      keeps none.  Nothing is refused until the commit, which finds no buffer. */
  method FullLog(nbuf: nat, start: int, size: int, blocks: seq<int>) returns (log: Log, logged: bool, ok: bool)
    requires 0 < nbuf < size && |blocks| == nbuf && Distinct(blocks)
    requires forall i :: 0 <= i < |blocks| ==> !(start <= blocks[i] < start + size)
    ensures log.c.h == nbuf && logged && log.lh == blocks && !ok
  {
    hide Tally, Cache.Ring, Log.Listed, Log.Apart, PlusAll, Plus, Elems;
    log := new Log(nbuf, start, size);
    logged := log.Recover([]);
    for i := 0 to nbuf
      invariant logged && log.Valid() && log.Balanced() && fresh(log) && fresh(log.c) && log.c.h == nbuf
      invariant log.start == start && log.size == size && log.lh == blocks[..i] && log.users == map[]
    {
      logged := LogNext(log, blocks, i);
    }
    Pins(blocks);
    assert blocks[..nbuf] == blocks;
    ok := log.Commit();
  }
}
