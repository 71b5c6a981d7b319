/**
 kernel/log.c run by one thread: commit and recovery as methods that update the disk block by
 block.  The ghost field `points` records the disk after every block write, so that each method
 can say what a crash at any of its writes leaves behind.
 */
module RedoLog {
  import opened LogFormat

  lemma Regroup(a: seq<Image>, b: seq<Image>, c: Image, e: seq<Image>, f: Image)
    ensures (a + b + [c]) + e + [f] == a + (b + [c] + e + [f])
  {
  }

  class Log {
    const layout: Layout
    const nbuf: nat              // buffers in the cache
    var disk: Image
    var cache: Image             // buffer cache: block number -> buffer data
    var lh: seq<int>             // log.lh.block[0..log.lh.n]
    ghost var points: seq<Image>

    /** What bread returns for every block: the cached copy, else the one on disk. */
    ghost function View(): Image
      reads this
    {
      disk + cache
    }

    /** Only blocks listed in lh may differ between cache and disk. */
    ghost predicate Valid()
      reads this
    {
      && Formatted(layout, disk)
      && layout.Fits(lh)
      && (forall b :: b in cache ==> b in disk && IsBlock(cache[b]))
      && (forall b :: b in cache && b !in lh ==> cache[b] == disk[b])
    }

    /** No transaction on disk, and every logged block is held in the cache (bpin). */
    ghost predicate ReadyToCommit()
      reads this
    {
      && Valid()
      && Entries(disk[layout.start]) == []
      && Pinned()
    }

    /** A machine that has just booted on disk d: memory is lost, the disk is not. */
    constructor Boot(l: Layout, n: nat, d: Image)
      requires Formatted(l, d)
      ensures layout == l && nbuf == n && disk == d && cache == map[] && lh == [] && points == []
      ensures Valid()
    {
      layout, nbuf, disk, cache, lh, points := l, n, d, map[], [], [];
    }

    /** bread: load the block into the cache unless it is there. */
    method Read(b: int) returns (data: Block)
      requires Valid() && b in disk
      modifies this`cache
      ensures Valid()
      ensures data == old(View())[b] && IsBlock(data)
      ensures cache == if b in old(cache) then old(cache) else old(cache)[b := data]
      ensures View() == old(View())
    {
      if b !in cache {
        cache := cache[b := disk[b]];
      }
      data := cache[b];
    }

    /** bwrite of a buffer holding data: one atomic block write. */
    method Write(b: int, data: Block)
      requires Valid() && b in disk && IsBlock(data)
      requires b == layout.start ==> IsHeader(layout, data)
      modifies this`cache, this`disk, this`points
      ensures Valid()
      ensures disk == old(disk)[b := data] && cache == old(cache)[b := data]
      ensures points == old(points) + [disk]
    {
      disk, cache := disk[b := data], cache[b := data];
      points := points + [disk];
    }

    method ReadHead()
      requires Valid() && lh == []
      modifies this`cache, this`lh
      ensures Valid()
      ensures lh == Entries(disk[layout.start])
    {
      var buf := Read(layout.start);
      lh := [];
      for i := 0 to buf[0]
        invariant lh == buf[1..1 + i]
        invariant layout.Fits(lh)
        invariant Valid()
        modifies this`lh
      {
        lh := lh + [buf[1 + i]];
      }
    }

    method WriteHead()
      requires Valid()
      modifies this`cache, this`disk, this`points
      ensures Valid()
      ensures disk == old(disk)[layout.start := WithEntries(old(disk)[layout.start], lh)]
      ensures Entries(disk[layout.start]) == lh
      ensures points == old(points) + [disk]
      ensures forall b :: b in old(cache) ==> b in cache
      ensures forall b :: b in disk && layout.Home(b) ==> View()[b] == old(View())[b]
    {
      var buf := Read(layout.start);
      ghost var was := buf;
      buf := buf[0 := |lh|];
      for i := 0 to |lh|
        invariant |buf| == BLOCK_WORDS
        invariant buf == [|lh|] + lh[..i] + was[1 + i..]
      {
        buf := buf[1 + i := lh[i]];
      }
      assert buf == WithEntries(was, lh) by { assert lh[..|lh|] == lh; }
      EntriesRoundTrip(layout, was, lh);
      Write(layout.start, buf);
    }

    /** Every block in lh is held in the cache, so its new contents are there. */
    ghost predicate Pinned()
      reads this
    {
      forall i :: 0 <= i < |lh| ==> lh[i] in cache
    }

    /** log_write of a buffer whose new contents are data: list the block once and pin it.  The
        requires about the length of lh is the "too big a transaction" panic. */
    method LogWrite(b: int, data: Block)
      requires ReadyToCommit() && layout.Home(b) && IsBlock(data)
      requires |lh| < layout.capacity && |lh| < layout.size - 1
      modifies this`cache, this`lh
      ensures ReadyToCommit()
      ensures lh == if b in old(lh) then old(lh) else old(lh) + [b]
      ensures View() == old(View())[b := data]
    {
      var i := 0;
      while i < |lh| && lh[i] != b
        invariant 0 <= i <= |lh| && b !in lh[..i]
      {
        i := i + 1;
      }
      if i == |lh| {
        assert b !in lh by { assert lh[..i] == lh; }
        lh := lh + [b];
      }
      cache := cache[b := data];
    }

    method LogOne(tail: nat)
      requires Valid() && Pinned() && tail < |lh|
      modifies this`cache, this`disk, this`points
      ensures Valid() && Pinned()
      ensures var b := layout.start + tail + 1;
              && disk == old(disk)[b := old(cache)[lh[tail]]]
              && cache == old(cache)[b := old(cache)[lh[tail]]]
      ensures points == old(points) + [disk]
    {
      var from := Read(lh[tail]);
      Write(layout.start + tail + 1, from);
    }

    lemma ValidParts()
      requires Valid()
      ensures layout.Valid() && AllBlocks(layout, disk) && layout.Fits(lh)
      ensures forall i :: 0 <= i < |lh| ==> lh[i] in disk
    {
    }

    lemma PinnedParts()
      requires Valid() && Pinned()
      ensures forall i :: 0 <= i < |lh| ==> lh[i] in cache && IsBlock(cache[lh[i]])
      ensures |lh| <= layout.size - 1
    {
    }

    method WriteLog(ghost vs: seq<Block>)
      requires Valid() && Pinned() && vs == DataOf(cache, lh)
      modifies this`cache, this`disk, this`points
      ensures Valid() && Pinned()
      ensures disk == Logged(layout, old(disk), vs, |lh|)
      ensures points == old(points) + LogPoints(layout, old(disk), vs, |lh|)
    {
      hide Valid, LogPoints, Logged, AllBlocks, IsBlock;
      ValidParts();
      PinnedParts();
      LoggedNone(layout, disk, vs);
      for tail := 0 to |lh|
        invariant Valid() && Pinned()
        invariant forall i :: 0 <= i < |lh| ==> cache[lh[i]] == vs[i]
        invariant disk == Logged(layout, old(disk), vs, tail)
        invariant points == old(points) + LogPoints(layout, old(disk), vs, tail)
      {
        LoggedMore(layout, old(disk), vs, tail);
        LogOne(tail);
      }
    }

    method InstallOne(tail: nat)
      requires Valid() && tail < |lh|
      modifies this`cache, this`disk, this`points
      ensures Valid()
      ensures disk == old(disk)[lh[tail] := old(disk)[layout.start + tail + 1]]
      ensures cache.Keys == old(cache).Keys + {lh[tail], layout.start + tail + 1}
      ensures cache[lh[tail]] == disk[lh[tail]]
      ensures forall b :: b in old(cache) && b != lh[tail] ==> cache[b] == old(cache)[b]
      ensures points == old(points) + [disk]
    {
      hide Valid, View, IsBlock, IsHeader;
      LogSlot(tail);
      var lbuf := Read(layout.start + tail + 1);
      var dbuf := Read(lh[tail]);
      dbuf := lbuf;
      Write(lh[tail], dbuf);
    }

    /** A log block is seen as it is on disk. */
    lemma LogSlot(tail: nat)
      requires Valid() && tail < |lh|
      ensures layout.start + tail + 1 in disk && lh[tail] in disk && lh[tail] != layout.start
              && lh[tail] != layout.start + tail + 1
      ensures layout.start + tail + 1 in View() && View()[layout.start + tail + 1] == disk[layout.start + tail + 1]
    {
    }

    /** The first n turns of install_trans. */
    method InstallTrans(n: nat)
      requires Valid() && n <= |lh|
      modifies this`cache, this`disk, this`points
      ensures Valid()
      ensures forall i :: 0 <= i < n ==> lh[i] in cache && cache[lh[i]] == disk[lh[i]]
      ensures disk == Installed(layout, old(disk), lh, n)
      ensures points == old(points) + InstallPoints(layout, old(disk), lh, n)
    {
      hide Valid, InstallPoints, Installed, AllBlocks, IsBlock;
      ValidParts();
      InstalledNone(layout, disk, lh);
      for tail := 0 to n
        invariant Valid()
        invariant forall i :: 0 <= i < |lh| ==> lh[i] in disk
        invariant forall i :: 0 <= i < tail ==> lh[i] in cache && cache[lh[i]] == disk[lh[i]]
        invariant disk == Installed(layout, old(disk), lh, tail)
        invariant points == old(points) + InstallPoints(layout, old(disk), lh, tail)
      {
        InstalledMore(layout, old(disk), lh, tail);
        InstallOne(tail);
      }
    }

    /** install_trans, then erase the transaction from the log. */
    method InstallAndErase()
      requires Valid() && lh == Entries(disk[layout.start])
      modifies this`cache, this`disk, this`points, this`lh
      ensures Valid() && lh == [] && Entries(disk[layout.start]) == []
      ensures disk == Recovered(layout, old(disk))
      ensures points == old(points) + InstallPoints(layout, old(disk), old(lh), |old(lh)|) + [disk]
    {
      ghost var bs := lh;
      InstallTrans(|lh|);
      InstalledOutside(layout, old(disk), bs, |bs|, layout.start);
      lh := [];
      WriteHead();
    }

    /** write_log, then write the header: up to and including the commit point. */
    method LogAndWriteHead(ghost vs: seq<Block>)
      requires ReadyToCommit() && vs == DataOf(cache, lh)
      modifies this`cache, this`disk, this`points
      ensures Valid() && lh == Entries(disk[layout.start])
      ensures disk == Committed(layout, old(disk), lh, vs)
      ensures points == old(points) + LogPoints(layout, old(disk), vs, |vs|) + [disk]
    {
      WriteLog(vs);
      LoggedAt(layout, old(disk), vs, |vs|, layout.start);
      WriteHead();
    }

    /** The block writes of a commit of a non-empty transaction. */
    method CommitWrites(ghost vs: seq<Block>)
      requires ReadyToCommit() && vs == DataOf(cache, lh)
      modifies this`cache, this`disk, this`points, this`lh
      ensures ReadyToCommit() && lh == []
      ensures points == old(points) + CommitPoints(layout, old(disk), old(lh), vs)
      ensures disk == points[|points| - 1]
    {
      ghost var d, bs, before := disk, lh, points;
      LogAndWriteHead(vs);
      ghost var c, mid := disk, points;
      InstallAndErase();
      Regroup(before, LogPoints(layout, d, vs, |vs|), c, InstallPoints(layout, c, bs, |bs|), disk);
    }

    /** Make the logged writes permanent.  A crash at one of the first |lh| block writes loses them
        all; a crash at any later one, from the header write on, keeps them all.  When the listed blocks
        pin every buffer, bget panics for want of one for the first log block. */
    method Commit() returns (ok: bool)
      requires ReadyToCommit()
      modifies this`cache, this`disk, this`points, this`lh
      ensures ok <==> old(lh) == [] || |old(lh)| < nbuf
      ensures !ok ==> disk == old(disk) && points == old(points)
      ensures ok ==> ReadyToCommit() && lh == [] && HomeOf(layout, disk) == HomeOf(layout, old(View()))
      ensures ok ==> |points| == |old(points)| + if old(lh) == [] then 0 else 2 * |old(lh)| + 2
      ensures old(points) <= points
      ensures forall k :: |old(points)| <= k < |points| ==>
                && Formatted(layout, points[k])
                && HomeOf(layout, Recovered(layout, points[k]))
                   == HomeOf(layout, if k < |old(points)| + |old(lh)| then old(disk) else old(View()))
    {
      if |lh| > 0 {
        if |lh| >= nbuf {
          return false;
        }
        ghost var view, vs := View(), DataOf(cache, lh);
        assert vs == DataOf(view, lh);
        CommitOutcome(layout, disk, lh, vs, view);
        CommitWrites(vs);
        EmptyLogIsRecovered(layout, disk);
      }
      ok := true;
    }

    /** initlog: replay the transaction on disk, if any, and erase it.  A crash at any block write
        leaves an image from which recovery produces the same home blocks.  Every installed block keeps its
        buffer, so that bget panics at block nbuf of the transaction; the transaction is then still on disk. */
    method RecoverFromLog() returns (ok: bool)
      requires Valid() && lh == [] && cache == map[]
      modifies this`cache, this`disk, this`points, this`lh
      ensures Formatted(layout, disk)
      ensures ok <==> |Entries(old(disk)[layout.start])| < nbuf
      ensures ok ==> ReadyToCommit() && lh == [] && disk == Recovered(layout, old(disk))
      ensures !ok ==> Entries(disk[layout.start]) == Entries(old(disk)[layout.start])
      ensures old(points) <= points
      ensures forall k :: |old(points)| <= k < |points| ==> RecoveryPoint(layout, old(disk), points[k])
    {
      if nbuf == 0 {
        return false;
      }
      ReadHead();
      if |lh| >= nbuf {
        InstallTrans(nbuf - 1);
        InstalledOutside(layout, old(disk), lh, nbuf - 1, layout.start);
        return false;
      }
      InstallAndErase();
      ok := true;
    }
  }
}
