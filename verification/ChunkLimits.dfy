/**
 filewrite (kernel/file.c) writes in chunks so small that an operation never logs more than MAXOPBLOCKS blocks.
 For every MAXOPBLOCKS = 2 * c + 4, a disk on which a chunk logs exactly that many, and one with a hole in the
 file on which it logs one more.
 */
module ChunkLimits {
  import opened FsDisk
  import opened FileLog
  import opened Files

  /** The bitmap blocks before this one are about blocks that are no data blocks. */
  const LOW: int := 19

  /** The first data block. */
  const FIRST: int := (LOW + 1) * BPB - 13

  /** The number of blocks, and where bitmap and inodes are: the inode blocks fill the room up to the bitmap, and the
      bitmap that up to the data blocks. */
  function Size(g: int): int { (LOW + g) * BPB + 1 }
  function BitmapAt(g: int): int { FIRST - (LOW + 1 + g) }
  const INODES_AT: int := 32

  /** The last block of the first of the other bitmap blocks' ranges and the first blocks of the rest are free. */
  predicate Vacant(b: int) { b == (LOW + 1) * BPB - 1 || (b >= (LOW + 1) * BPB && b % BPB == 0) }

  /** The blocks of inode 1, all direct ones but the last if there is a hole. */
  predicate Mine(b: int, hole: bool) { FIRST <= b < FIRST + (if hole then 11 else 12) }

  /** Every other used block is the only block of the inode of the same number. */
  predicate Filler(b: int, hole: bool) { FIRST <= b && !Vacant(b) && !Mine(b, hole) }

  /** What is in slot k of inode i. */
  function SlotOf(i: int, k: int, hole: bool): int {
    if i == 1 then (if k < 11 || (k == 11 && !hole) then FIRST + k else 0) else if k == 0 then i else 0
  }

  /** Inode 1 ends in the middle of its last direct block; the others are empty. */
  function InodeOf(i: int, hole: bool): (r: Inode)
    ensures |r.addrs| == NDIRECT + 1 && forall k :: 0 <= k <= NDIRECT ==> r.addrs[k] == SlotOf(i, k, hole)
  {
    Inode(2, if i == 1 then 11 * BSIZE + BSIZE / 2 else 0, seq(NDIRECT + 1, k => SlotOf(i, k, hole)))
  }

  function OwnerOf(b: int, hole: bool): Slot { if Mine(b, hole) then Slot(1, b - FIRST) else Slot(b, 0) }

  /** A disk with g + 1 free blocks. */
  function Tight(g: int, hole: bool): Disk
    requires 0 < g
  {
    Disk(FIRST,
         seq(Size(g), b => !Vacant(b)),
         seq(Size(g), b => Zeros()),
         map i | 0 <= i < Size(g) && (i == 1 || Filler(i, hole)) :: InodeOf(i, hole),
         map b | FIRST <= b < Size(g) && !Vacant(b) :: OwnerOf(b, hole))
  }

  lemma TightShaped(g: int, hole: bool)
    requires 0 < g <= 257
    ensures Shaped(Tight(g, hole)) && 1 in Tight(g, hole).inodes
  {
  }

  lemma TightAt(g: int, hole: bool, i: int, k: int)
    requires 0 < g <= 257 && i in Tight(g, hole).inodes && 0 <= k < SLOTS
    ensures Shaped(Tight(g, hole))
    ensures At(Tight(g, hole), i, k) == if k <= INDIRECT then SlotOf(i, k, hole) else 0
  {
    TightShaped(g, hole);
  }

  lemma TightOwned(g: int, hole: bool)
    requires 0 < g <= 257
    ensures Owned(Tight(g, hole), {})
  {
    var d := Tight(g, hole);
    TightShaped(g, hole);
    forall i, k | i in d.inodes && 0 <= k < SLOTS && At(d, i, k) != 0
      ensures At(d, i, k) in d.owner && d.owner[At(d, i, k)] == Slot(i, k)
    {
      TightAt(g, hole, i, k);
    }
    forall b | b in d.owner
      ensures && d.start <= b < |d.used| && d.used[b] && d.owner[b].inum in d.inodes && 0 <= d.owner[b].k < SLOTS
              && At(d, d.owner[b].inum, d.owner[b].k) == b
    {
      TightAt(g, hole, d.owner[b].inum, d.owner[b].k);
    }
  }

  /** Without the hole the files are as they should be; with it they are not. */
  lemma TightFiles(g: int, hole: bool)
    requires 0 < g <= 257
    ensures Shaped(Tight(g, hole)) && (FilesOk(Tight(g, hole)) <==> !hole)
    ensures At(Tight(g, hole), 1, FileSlot(11)) == if hole then 0 else FIRST + 11
  {
    var d := Tight(g, hole);
    TightShaped(g, hole);
    TightAt(g, hole, 1, 11);
    if hole {
      assert At(d, 1, FileSlot(11)) == 0;
      assert !FileOk(d, 1);
    } else {
      forall i | i in d.inodes ensures FileOk(d, i) {
        forall n | 0 <= n < MAXFILE && n * BSIZE < d.inodes[i].size ensures At(d, i, FileSlot(n)) != 0 {
          TightAt(g, hole, i, FileSlot(n));
        }
      }
    }
  }

  // ----- how many blocks there are and are needed

  lemma CardSame(a: set<int>, b: set<int>)
    requires a <= b && |a| == |b|
    ensures a == b
  {
    assert b == a + (b - a);
  }

  lemma FreeCard(g: int, hole: bool)
    requires 0 < g <= 257
    ensures |FreeBlocks(Tight(g, hole))| == g + 1
    ensures forall m :: Bits(m, FreeBlocks(Tight(g, hole))) == Range(m + LOW, m + LOW + g + 1)
  {
    var free := FreeBlocks(Tight(g, hole));
    var f := map b | b in free :: b / BPB;
    InjectiveCard(free, f);
    forall b | b in free ensures Vacant(b) && LOW <= b / BPB <= LOW + g {
    }
    forall m ensures Bits(m, free) == Range(m + LOW, m + LOW + g + 1) {
      FreeBits(g, hole, m);
    }
    FreeBits(g, hole, 0);
    assert (set b | b in free :: f[b]) == Bits(0, free);
    RangeCard(LOW, LOW + g + 1);
  }

  /** The free block of bitmap block q. */
  function FreeOf(q: int): int { if q == LOW then (LOW + 1) * BPB - 1 else q * BPB }

  lemma FreeAt(g: int, hole: bool, q: int)
    requires 0 < g <= 257
    ensures LOW <= q <= LOW + g ==> FreeOf(q) in FreeBlocks(Tight(g, hole)) && FreeOf(q) / BPB == q
  {
  }

  lemma FreeBits(g: int, hole: bool, m: int)
    requires 0 < g <= 257
    ensures Bits(m, FreeBlocks(Tight(g, hole))) == Range(m + LOW, m + LOW + g + 1)
  {
    var free := FreeBlocks(Tight(g, hole));
    var bits, all := Bits(m, free), Range(m + LOW, m + LOW + g + 1);
    forall q ensures q in bits <==> q in all {
      FreeAt(g, hole, q - m);
      assert Within(q, m + LOW, m + LOW + g + 1) <==> m + LOW <= q <= m + LOW + g;
      if LOW <= q - m <= LOW + g {
        assert FreeOf(q - m) / BPB + m == q;
      }
    }
  }

  /** The slots that a chunk of c blocks starting in the middle of the last direct block needs. */
  lemma WantedIs(g: int, hole: bool, c: int)
    requires 0 < g <= 257 && 0 < c <= 256
    ensures Shaped(Tight(g, hole)) && 1 in Tight(g, hole).inodes
    ensures Wanted(Tight(g, hole), 1, 11, 12 + c) == Range(if hole then 11 else 12, 13 + c)
    ensures |Wanted(Tight(g, hole), 1, 11, 12 + c)| == c + 1 + if hole then 1 else 0
  {
    var d := Tight(g, hole);
    TightShaped(g, hole);
    var lo := if hole then 11 else 12;
    var W, all := Wanted(d, 1, 11, 12 + c), Range(lo, 13 + c);
    forall k ensures k in W <==> k in all {
      assert Within(k, lo, 13 + c) <==> lo <= k < 13 + c;
      if 0 <= k < SLOTS {
        TightAt(g, hole, 1, k);
        assert Touches(k, 11, 12 + c) <==> 11 <= k < 13 + c;
      }
    }
    RangeCard(lo, 13 + c);
  }

  // ----- the chunk

  const OFF: int := 11 * BSIZE + BSIZE / 2

  function Extra(hole: bool): int { if hole then 1 else 0 }

  /** d0 with the slots of a chunk of c blocks filled, which takes all free blocks. */
  ghost predicate Chunked(d0: Disk, d: Disk, hole: bool, c: int) {
    && Owned(d0, {}) && Owned(d, {}) && 0 < c <= 256
    && Fills(d0, d, 1, Range(if hole then 11 else 12, 13 + c))
    && |FreeBlocks(d0)| == c + 1 + Extra(hole)
    && At(d0, 1, 11) == (if hole then 0 else FIRST + 11)
  }

  lemma ChunkNews(d0: Disk, d: Disk, hole: bool, c: int)
    requires Chunked(d0, d, hole, c)
    ensures Shaped(d) && 1 in d.inodes && 0 <= d0.start
    ensures News(d, 1, Range(if hole then 11 else 12, 13 + c)) == FreeBlocks(d0)
  {
    var W := Range(if hole then 11 else 12, 13 + c);
    RangeCard(if hole then 11 else 12, 13 + c);
    NewsWereFree(d0, d, 1, W);
    CardSame(News(d, 1, W), FreeBlocks(d0));
  }

  /** A slot is one of them. */
  lemma SlotNew(d0: Disk, d: Disk, hole: bool, c: int, k: int)
    requires Chunked(d0, d, hole, c) && (if hole then 11 else 12) <= k < 13 + c
    ensures Shaped(d) && 1 in d.inodes && 0 <= d0.start && At(d, 1, k) in FreeBlocks(d0)
  {
    hide Chunked, FreeBlocks, Shaped, At, News;
    ChunkNews(d0, d, hole, c);
    assert Within(k, if hole then 11 else 12, 13 + c);
    ChunkSmall(d0, d, hole, c);
    NewsHas(d, Range(if hole then 11 else 12, 13 + c), k);
  }

  lemma ChunkSmall(d0: Disk, d: Disk, hole: bool, c: int)
    requires Chunked(d0, d, hole, c)
    ensures 0 < c <= 256
  {
    hide Owned, Fills, FreeBlocks;
  }

  lemma ChunkSize(d0: Disk, d: Disk, hole: bool, c: int)
    requires Chunked(d0, d, hole, c)
    ensures |d.used| == |d0.used|
  {
    hide Owned, FreeBlocks;
  }

  lemma NewsHas(d: Disk, W: set<int>, k: int)
    requires Shaped(d) && 1 in d.inodes && k in W && 0 <= k < SLOTS
    ensures At(d, 1, k) in News(d, 1, W)
  {
  }

  /** With the block the chunk starts in, the new blocks are all the blocks written. */
  lemma ChunkData(d0: Disk, d: Disk, hole: bool, c: int)
    requires Chunked(d0, d, hole, c)
    ensures Shaped(d) && 1 in d.inodes && 0 <= d0.start
    ensures Data(d, 1, 11, 12 + c) <= FreeBlocks(d0) + (if hole then {} else {FIRST + 11})
    ensures hole || FIRST + 11 in Data(d, 1, 11, 12 + c)
  {
    hide Chunked, FreeBlocks, At, Shaped;
    ChunkNews(d0, d, hole, c);
    ChunkSmall(d0, d, hole, c);
    StartBlock(d0, d, hole, c);
    var all := FreeBlocks(d0) + if hole then {} else {FIRST + 11};
    forall b | b in Data(d, 1, 11, 12 + c) ensures b in all {
      var bn :| 11 <= bn < 12 + c && b == At(d, 1, FileSlot(bn));
      if bn > 11 || hole {
        SlotNew(d0, d, hole, c, FileSlot(bn));
      }
    }
  }

  lemma StartBlock(d0: Disk, d: Disk, hole: bool, c: int)
    requires Chunked(d0, d, hole, c)
    ensures Shaped(d) && 1 in d.inodes && (hole || At(d, 1, FileSlot(11)) == FIRST + 11)
  {
    hide FreeBlocks;
    if !hole {
      assert !Within(11, 12, 13 + c);
    }
  }

  lemma ChunkIndirect(d0: Disk, d: Disk, hole: bool, c: int)
    requires Chunked(d0, d, hole, c)
    ensures Shaped(d) && 1 in d.inodes && 0 <= d0.start
    ensures Indirect(d, 1, Range(if hole then 11 else 12, 13 + c)) <= FreeBlocks(d0)
  {
    SlotNew(d0, d, hole, c, INDIRECT);
  }

  lemma ChunkedTight(d: Disk, g: int, hole: bool, c: int)
    requires 0 < c <= 256 && g == c + Extra(hole) && Owned(d, {}) && Owned(Tight(g, hole), {})
             && 1 in Tight(g, hole).inodes
    requires Fills(Tight(g, hole), d, 1, Wanted(Tight(g, hole), 1, 11, 12 + c))
    ensures Chunked(Tight(g, hole), d, hole, c)
  {
    hide Owned, Fills, Tight, Wanted, FreeBlocks, At;
    WantedIs(g, hole, c);
    FreeCard(g, hole);
    TightFiles(g, hole);
  }

  /** The sets of blocks logged: the file's, bitmap blocks below the data blocks, and the inode's block. */
  lemma LogCard(free: set<int>, hole: bool, g: int, log: set<int>)
    requires 0 < g <= 257 && |free| == g + 1 && FIRST + 11 !in free && forall b :: b in free ==> b >= FIRST
    requires log == free + (if hole then {} else {FIRST + 11}) + Range(BitmapAt(g) + LOW, FIRST) + {INODES_AT}
    ensures |log| == 2 * g + 3 + if hole then 0 else 1
  {
    var a := free + if hole then {} else {FIRST + 11};
    var lo := BitmapAt(g) + LOW;
    var r := Range(lo, FIRST);
    RangeCard(lo, FIRST);
    forall q | q in r ensures lo <= q < FIRST {
      assert Within(q, lo, FIRST);
    }
    assert a !! r;
    assert INODES_AT !in a + r;
    assert |a + r| == |a| + |r|;
  }

  /** A chunk of filewrite that starts inside the last direct block of a file and runs into the indirect blocks,
      on a disk whose free blocks have their bits in different bitmap blocks.  It logs exactly the 2 * c + 4 blocks
      that were set aside when the file is in order, and one more when it has a hole where the chunk starts. */
  method ChunkAtLimit(c: int, hole: bool) returns (fs: FileSystem, r: int, ghost d0: Disk)
    requires 0 < c <= 256
    ensures Owned(d0, {}) && (FilesOk(d0) <==> !hole)
    ensures fresh(fs) && fs.maxOp == 2 * c + 4 && r == fs.MaxChunk() == c * BSIZE
    ensures |fs.logged| == fs.maxOp + Extra(hole)
    ensures !hole ==> fs.Valid()
    ensures fs.Regions()
  {
    hide Owned, FilesOk, Tight, Wanted, FreeBlocks, Fills, Shaped, Range, Full, At;
    hide FileSystem.WriteLogged, FileSystem.WriteDone, FileSystem.NoHole, FileSystem.Reached, FileSystem.Logged;
    hide FileSystem.Valid;
    var g := c + if hole then 1 else 0;
    d0 := Tight(g, hole);
    TightOwned(g, hole);
    TightFiles(g, hole);
    TightSize(g, hole);
    fs := new FileSystem.Mount(Tight(g, hole), BitmapAt(g), INODES_AT, 2 * c + 4);
    WantedIs(g, hole, c);
    FreeCard(g, hole);
    Ends(fs, c);
    var ok;
    ok, r := fs.WriteChunk(1, OFF, seq(c * BSIZE, k => 0), c * BSIZE);
    LimitLog(fs, g, hole, c);
    TightRegions(fs, g, hole);
    if !hole {
      DoneValid(fs, d0, c);
    }
  }

  lemma TightRegions(fs: FileSystem, g: int, hole: bool)
    requires 0 < g <= 257 && fs.start == FIRST && fs.bmapStart == BitmapAt(g) && fs.inodeStart == INODES_AT
    requires |fs.used| == |Tight(g, hole).used| && fs.inodes.Keys == Tight(g, hole).inodes.Keys
    ensures fs.Regions()
  {
    forall i | i in fs.inodes ensures 0 <= i && fs.Iblock(i) < fs.bmapStart {
      assert i in Tight(g, hole).inodes.Keys;
    }
  }

  lemma DoneValid(fs: FileSystem, d0: Disk, c: int)
    requires Owned(d0, {}) && FilesOk(d0) && 1 in d0.inodes && d0.inodes[1].size == OFF && 0 < c
    requires fs.WriteDone(d0, 1, OFF, seq(c * BSIZE, k => 0), c * BSIZE)
    ensures fs.Valid()
  {
  }

  lemma Ends(fs: FileSystem, c: int)
    requires 0 < c
    ensures fs.Reached(OFF, c * BSIZE, c * BSIZE) == 12 + c == fs.Logged(OFF, c * BSIZE, c * BSIZE) && OFF / BSIZE == 11
  {
  }

  lemma LimitLog(fs: FileSystem, g: int, hole: bool, c: int)
    requires 0 < c <= 256 && g == c + Extra(hole) && Owned(Tight(g, hole), {}) && 1 in Tight(g, hole).inodes
    requires fs.bmapStart == BitmapAt(g) && fs.inodeStart == INODES_AT
             && fs.WriteLogged(Tight(g, hole), 1, OFF, c * BSIZE, c * BSIZE, {})
    ensures |fs.logged| == 2 * g + 3 + if hole then 0 else 1
    ensures |fs.used| == |Tight(g, hole).used|
  {
    hide Owned, Tight, Wanted, FreeBlocks, Fills, News, Bits, Data, Indirect, Range, Vacant, At;
    var d0, d := Tight(g, hole), fs.D();
    Ends(fs, c);
    WantedIs(g, hole, c);
    ChunkedTight(d, g, hole, c);
    ChunkSize(d0, d, hole, c);
    ChunkNews(d0, d, hole, c);
    ChunkData(d0, d, hole, c);
    ChunkIndirect(d0, d, hole, c);
    FreeCard(g, hole);
    FreeAbove(g, hole);
    LogCard(FreeBlocks(d0), hole, g, fs.logged);
  }

  lemma FreeAbove(g: int, hole: bool)
    requires 0 < g <= 257
    ensures FIRST + 11 !in FreeBlocks(Tight(g, hole)) && forall b :: b in FreeBlocks(Tight(g, hole)) ==> b >= FIRST
  {
  }

  lemma TightSize(g: int, hole: bool)
    requires 0 < g <= 257
    ensures 1 in Tight(g, hole).inodes && Tight(g, hole).inodes[1].size == OFF && Tight(g, hole).start == FIRST
  {
  }
}
