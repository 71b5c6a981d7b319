/**
 The blocks that link, unlink and create (kernel/sysfile.c) log in one operation: what dirlink, iupdate and iput pass
 to log_write, on a disk with any number of bitmap blocks.
 */
module OpLogs {
  import opened FsDisk
  import opened FileLog
  import opened Files

  /** Bytes of a directory entry. */
  const DIRENT: int := 16

  /** The most blocks besides the inode's that an entry written at off in directory i can log: its block; if that
      is new its bitmap block, and if it is not a direct one also the indirect block and its bitmap block. */
  ghost function EntryBlocks(d: Disk, i: int, off: int): int
    requires Shaped(d) && i in d.inodes && 0 <= off < MAXFILE * BSIZE
  {
    if At(d, i, FileSlot(off / BSIZE)) != 0 then 1 else if off / BSIZE < NDIRECT then 2 else 4
  }

  lemma EntryWanted(d: Disk, i: int, lo: int)
    requires Shaped(d) && i in d.inodes && 0 <= lo < MAXFILE
    ensures At(d, i, FileSlot(lo)) != 0 ==> Wanted(d, i, lo, lo + 1) == {}
    ensures At(d, i, FileSlot(lo)) == 0 && lo < NDIRECT ==> Wanted(d, i, lo, lo + 1) == {lo}
    ensures Wanted(d, i, lo, lo + 1) <= {FileSlot(lo), INDIRECT}
  {
  }

  /** The blocks of the slots W and their bitmap blocks, where W is among the entry's slot and the indirect block's. */
  lemma FewNews(d: Disk, i: int, W: set<int>, k: int, m: int)
    requires Shaped(d) && i in d.inodes && 0 <= k < SLOTS && W <= {k, INDIRECT}
    ensures News(d, i, W) <= {At(d, i, k), At(d, i, INDIRECT)}
    ensures Bits(m, News(d, i, W)) <= {At(d, i, k) / BPB + m, At(d, i, INDIRECT) / BPB + m}
    ensures Indirect(d, i, W) <= {At(d, i, INDIRECT)}
    ensures W == {} ==> News(d, i, W) == {} && Bits(m, News(d, i, W)) == {} && Indirect(d, i, W) == {}
    ensures W == {k} && k < INDIRECT ==>
              && News(d, i, W) == {At(d, i, k)} && Bits(m, News(d, i, W)) == {At(d, i, k) / BPB + m}
              && Indirect(d, i, W) == {}
  {
  }

  lemma FewCard(x: set<int>, a: int, b: int, c: int, e: int)
    ensures x <= {a} ==> |x| <= 1
    ensures x <= {a, b} ==> |x| <= 2
    ensures x <= {a, b, c, e} ==> |x| <= 4
  {
    var p, q := {a, b}, {a, b, c, e};
    if x <= {a} {
      CardSub(x, {a});
    }
    if x <= p {
      CardSub(x, p);
    }
    if x <= q {
      CardSub(x, q);
    }
  }

  lemma EntryReach(fs: FileSystem, off: int)
    requires 0 <= off && off % DIRENT == 0 && off + DIRENT <= MAXFILE * BSIZE
    ensures fs.Reached(off, DIRENT, DIRENT) == off / BSIZE + 1 == fs.Logged(off, DIRENT, DIRENT)
    ensures 0 <= off / BSIZE < MAXFILE
  {
  }

  /** What a write of one block of a file logs besides the inode, W being the slots it fills. */
  ghost function Blocks(d: Disk, i: int, lo: int, W: set<int>, m: int): set<int>
    requires Shaped(d) && i in d.inodes && 0 <= lo < MAXFILE
  {
    FillLog(d, i, W, m) + Data(d, i, lo, lo + 1)
  }

  lemma FewBlocks(d0: Disk, d: Disk, i: int, lo: int, m: int)
    requires Shaped(d0) && Shaped(d) && i in d0.inodes && i in d.inodes && 0 <= lo < MAXFILE
    ensures |Blocks(d, i, lo, Wanted(d0, i, lo, lo + 1), m)| <= EntryBlocks(d0, i, lo * BSIZE)
  {
    hide Shaped, Wanted, At, News, Bits, Indirect, Data;
    var k := FileSlot(lo);
    var W := Wanted(d0, i, lo, lo + 1);
    EntryWanted(d0, i, lo);
    OneBlock(d, i, lo);
    FewNews(d, i, W, k, m);
    var x := Blocks(d, i, lo, W, m);
    var b, n := At(d, i, k), At(d, i, INDIRECT);
    FewCard(x, b, b / BPB + m, n, n / BPB + m);
    assert lo * BSIZE / BSIZE == lo;
  }

  /** What an entry's write logs. */
  lemma EntryLog(fs: FileSystem, d0: Disk, d: Disk, i: int, off: int)
    requires Owned(d0, {}) && Owned(d, {}) && i in d0.inodes && 0 <= off && off % DIRENT == 0
    requires off + DIRENT <= MAXFILE * BSIZE && Fills(d0, d, i, fs.Needed(d0, i, off, DIRENT, DIRENT))
    ensures Shaped(d) && i in d.inodes && off / BSIZE < MAXFILE
    ensures var W := fs.Needed(d0, i, off, DIRENT, DIRENT);
            fs.WriteLog(d, i, off, DIRENT, DIRENT, W) == Blocks(d, i, off / BSIZE, W, fs.bmapStart) + {fs.Iblock(i)}
    ensures |Blocks(d, i, off / BSIZE, fs.Needed(d0, i, off, DIRENT, DIRENT), fs.bmapStart)| <= EntryBlocks(d0, i, off)
  {
    hide Owned, Fills, Wanted, At, News, Bits, Indirect, Data, FillLog, FileSystem.Reached, FileSystem.Logged, Shaped;
    fs.OwnedShape(d0);
    fs.OwnedShape(d);
    EntryReach(fs, off);
    fs.FillsIn(d0, d, i, fs.Needed(d0, i, off, DIRENT, DIRENT));
    FewBlocks(d0, d, i, off / BSIZE, fs.bmapStart);
    SameEntryBlocks(d0, i, off);
  }

  lemma SameEntryBlocks(d: Disk, i: int, off: int)
    requires Shaped(d) && i in d.inodes && 0 <= off < MAXFILE * BSIZE
    ensures EntryBlocks(d, i, off / BSIZE * BSIZE) == EntryBlocks(d, i, off)
  {
    assert off / BSIZE * BSIZE / BSIZE == off / BSIZE;
  }

  lemma OneBlock(d: Disk, i: int, lo: int)
    requires Shaped(d) && i in d.inodes && 0 <= lo < MAXFILE
    ensures Data(d, i, lo, lo + 1) == {At(d, i, FileSlot(lo))}
  {
  }

  /** The writei of a directory entry at off, in dirlink or unlink; blocks are those logged besides the inode's. */
  method PutEntry(fs: FileSystem, i: int, off: int, entry: seq<int>) returns (ok: bool, ghost blocks: set<int>)
    requires fs.Valid() && i in fs.inodes && 0 <= off && off % DIRENT == 0 && off + DIRENT <= MAXFILE * BSIZE
    requires off <= fs.inodes[i].size && |entry| == DIRENT && forall k :: 0 <= k < DIRENT ==> 0 <= entry[k] < 256
    modifies fs`used, fs`data, fs`inodes, fs`owner, fs`logged
    ensures fs.inodes.Keys == old(fs.inodes).Keys
    ensures ok ==> fs.Valid() && fs.logged == old(fs.logged) + blocks + {fs.Iblock(i)} && |fs.used| == |old(fs.used)|
    ensures ok ==> |blocks| <= EntryBlocks(old(fs.D()), i, off)
    ensures ok ==> fs.inodes[i].size >= off + DIRENT
    ensures ok ==> forall j :: j in old(fs.inodes) && j != i ==> fs.inodes[j].size == old(fs.inodes)[j].size
    ensures EntryBlocks(old(fs.D()), i, off) == 1 ==> ok
  {
    hide Owned, FilesOk, Fills, Wanted, At, News, Bits, Indirect, Data, Contents, Overlay;
    hide FileSystem.WriteLog, FileSystem.Needed, EntryBlocks, Blocks;
    ghost var d0, base := fs.D(), fs.logged;
    fs.OwnedShape(d0);
    NoneNeeded(fs, d0, i, off);
    var r;
    ok, r := fs.Writei(i, off, entry, DIRENT);
    blocks := {};
    if ok {
      EntryLog(fs, d0, fs.D(), i, off);
      Kept(fs, d0, i, off);
      blocks := Blocks(fs.D(), i, off / BSIZE, fs.Needed(d0, i, off, DIRENT, DIRENT), fs.bmapStart);
      assert base + (blocks + {fs.Iblock(i)}) == base + blocks + {fs.Iblock(i)};
    }
  }

  lemma NoneNeeded(fs: FileSystem, d: Disk, i: int, off: int)
    requires Shaped(d) && i in d.inodes && 0 <= off && off % DIRENT == 0 && off + DIRENT <= MAXFILE * BSIZE
    ensures EntryBlocks(d, i, off) == 1 ==> fs.Needed(d, i, off, DIRENT, DIRENT) == {}
  {
    hide Shaped, Wanted, At;
    EntryReach(fs, off);
    EntryWanted(d, i, off / BSIZE);
  }

  lemma Kept(fs: FileSystem, d0: Disk, i: int, off: int)
    requires Owned(d0, {}) && i in d0.inodes && 0 <= off && off + DIRENT <= MAXFILE * BSIZE
    requires Owned(fs.D(), {}) && Fills(d0, fs.D(), i, fs.Needed(d0, i, off, DIRENT, DIRENT))
    ensures i in fs.inodes && |fs.used| == |d0.used|
  {
  }

  /** An entry that is there already, or follows another one in its block, is in a block that is there. */
  lemma EntryMapped(d: Disk, i: int, off: int, e: int)
    requires Shaped(d) && FilesOk(d) && i in d.inodes && 0 <= off < MAXFILE * BSIZE
    requires off / BSIZE == e / BSIZE && 0 <= e < d.inodes[i].size
    ensures EntryBlocks(d, i, off) == 1
  {
    assert FileOk(d, i);
    assert e / BSIZE * BSIZE <= e;
  }

  // ----- the operations

  method Iupdate(fs: FileSystem, i: int)
    modifies fs`logged
    ensures fs.logged == old(fs.logged) + {fs.Iblock(i)} && fs.D() == old(fs.D()) && (old(fs.Valid()) ==> fs.Valid())
  {
    hide Owned, FilesOk;
    fs.logged := fs.logged + {fs.Iblock(i)};
  }

  lemma Six(log: set<int>, a: int, b: int, x: set<int>)
    requires log <= {a, b} + x && |x| <= 4
    ensures |log| <= 6
  {
    CardSub(log, {a, b} + x);
    CardUnion({a, b}, x);
  }

  /** sys_link of inode i in directory d, from iupdate on: at most six blocks.  found says that dirlink finds the name
      in use; ok is false where the source panics because the disk is full. */
  method LinkBlocks(fs: FileSystem, i: int, d: int, off: int, entry: seq<int>, found: bool) returns (ok: bool)
    requires fs.Valid() && i in fs.inodes && d in fs.inodes && fs.logged == {}
    requires 0 <= off <= fs.inodes[d].size && off % DIRENT == 0 && off + DIRENT <= MAXFILE * BSIZE
    requires |entry| == DIRENT && forall k :: 0 <= k < DIRENT ==> 0 <= entry[k] < 256
    modifies fs`used, fs`data, fs`inodes, fs`owner, fs`logged
    ensures ok ==> fs.Valid() && |fs.logged| <= 6
    ensures found ==> ok && fs.logged == {fs.Iblock(i)}
  {
    hide FileSystem.Valid, EntryBlocks;
    AtMostFour(fs, d, off);
    Iupdate(fs, i);
    ghost var x := {};
    if found {
      Iupdate(fs, i);
      ok := true;
    } else {
      ok, x := PutEntry(fs, d, off, entry);
    }
    if ok {
      Six(fs.logged, fs.Iblock(i), fs.Iblock(d), x);
    }
  }

  lemma AtMostFour(fs: FileSystem, i: int, off: int)
    requires fs.Valid() && i in fs.inodes && 0 <= off < MAXFILE * BSIZE
    ensures 1 <= EntryBlocks(fs.D(), i, off) <= 4 && (off < BSIZE ==> EntryBlocks(fs.D(), i, off) <= 2)
  {
  }

  lemma Three(log: set<int>, a: int, b: int, x: set<int>, bits: set<int>, n: int)
    requires log <= {a, b} + x + bits && |x| <= 1 && |bits| <= n
    ensures |log| <= 3 + n
  {
    CardSub(log, {a, b} + x + bits);
    CardUnion({a, b} + x, bits);
    CardUnion({a, b}, x);
  }

  /** The first part of sys_unlink's updates: the entry at off in directory d, d's inode if a directory goes, and
      that of i. */
  method Unname(fs: FileSystem, d: int, off: int, i: int, isDir: bool) returns (ok: bool, ghost x: set<int>)
    requires fs.Valid() && i in fs.inodes && d in fs.inodes && fs.logged == {}
    requires 0 <= off && off % DIRENT == 0 && off + DIRENT <= fs.inodes[d].size
    modifies fs`used, fs`data, fs`inodes, fs`owner, fs`logged
    ensures ok && fs.Valid() && i in fs.inodes && fs.logged <= {fs.Iblock(d), fs.Iblock(i)} + x && |x| <= 1
  {
    SizeBound(fs, d);
    EntryMapped(fs.D(), d, off, off);
    hide FileSystem.Valid, EntryBlocks, FilesOk, Owned;
    ok, x := PutEntry(fs, d, off, seq(DIRENT, k => 0));
    if isDir {
      Iupdate(fs, d);
    }
    Iupdate(fs, i);
  }

  /** sys_unlink of the entry at off in directory d, which names inode i, from the writei on: at most three blocks, and
      if i goes the bitmap blocks of its blocks.  nlink is i's link count after that, ref its reference count. */
  method UnlinkBlocks(fs: FileSystem, d: int, off: int, i: int, isDir: bool, ref: int, nlink: int) returns (ok: bool)
    requires fs.Valid() && i in fs.inodes && d in fs.inodes && fs.logged == {} && ref >= 1
    requires 0 <= off && off % DIRENT == 0 && off + DIRENT <= fs.inodes[d].size
    modifies fs`used, fs`data, fs`inodes, fs`owner, fs`logged
    ensures ok && fs.Valid() && |fs.logged| <= 3 + BitCount(|fs.used|)
    ensures ref != 1 || nlink != 0 ==> |fs.logged| <= 3
  {
    hide FileSystem.Valid, Owned, FilesOk, Contents, Bits, FileSystem.OwnedBy, BitCount;
    ghost var x;
    ok, x := Unname(fs, d, off, i, isDir);
    ghost var log, bits := fs.logged, Bits(fs.bmapStart, fs.OwnedBy(fs.D(), i));
    FewBits(fs, i);
    fs.Iput(i, ref, nlink);
    fs.BitCountNat();
    if ref == 1 && nlink == 0 {
      assert fs.logged == log + bits + {fs.Iblock(i)};
      Three(fs.logged, fs.Iblock(d), fs.Iblock(i), x, bits, BitCount(|fs.used|));
    } else {
      Three(fs.logged, fs.Iblock(d), fs.Iblock(i), x, {}, 0);
    }
  }

  lemma SizeBound(fs: FileSystem, i: int)
    requires fs.Valid() && i in fs.inodes
    ensures fs.inodes[i].size <= MAXFILE * BSIZE && Shaped(fs.D())
  {
    assert FileOk(fs.D(), i);
  }

  lemma FewBits(fs: FileSystem, i: int)
    requires fs.Valid()
    ensures |Bits(fs.bmapStart, fs.OwnedBy(fs.D(), i))| <= BitCount(|fs.used|)
  {
    BitsInside(fs.bmapStart, fs.OwnedBy(fs.D(), i), |fs.used|);
  }

  lemma Nine(log: set<int>, a: int, b: int, x: set<int>, y: set<int>, z: set<int>)
    requires log <= {a, b} + x + y + z && |x| <= 2 && |y| <= 1 && |z| <= 4
    ensures |log| <= 9
  {
    CardSub(log, {a, b} + x + y + z);
    CardUnion({a, b} + x + y, z);
    CardUnion({a, b} + x, y);
    CardUnion({a, b}, x);
  }

  /** The part of create that fills a new directory i with "." and "..", which name it and its parent d. */
  method FillDir(fs: FileSystem, i: int, d: int, dot: seq<int>, dotdot: seq<int>)
    returns (ok: bool, ghost x: set<int>, ghost y: set<int>)
    requires fs.Valid() && i in fs.inodes && d in fs.inodes && i != d && fs.inodes[i].size == 0
    requires |dot| == |dotdot| == DIRENT
    requires forall k :: 0 <= k < DIRENT ==> 0 <= dot[k] < 256 && 0 <= dotdot[k] < 256
    modifies fs`used, fs`data, fs`inodes, fs`owner, fs`logged
    ensures fs.inodes.Keys == old(fs.inodes).Keys
    ensures ok ==> fs.Valid() && fs.logged == old(fs.logged) + {fs.Iblock(d)} + x + {fs.Iblock(i)} + y + {fs.Iblock(i)}
    ensures ok ==> |x| <= 2 && |y| <= 1
    ensures ok ==> fs.inodes[d].size == old(fs.inodes)[d].size
  {
    hide FileSystem.Valid, EntryBlocks, FilesOk, Owned;
    Iupdate(fs, d);
    AtMostFour(fs, i, 0);
    y := {};
    ok, x := PutEntry(fs, i, 0, dot);
    if ok {
      FirstBlock(fs, i);
      ok, y := PutEntry(fs, i, DIRENT, dotdot);
    }
  }

  lemma FirstBlock(fs: FileSystem, i: int)
    requires fs.Valid() && i in fs.inodes && fs.inodes[i].size >= DIRENT
    ensures EntryBlocks(fs.D(), i, DIRENT) == 1
  {
    EntryMapped(fs.D(), i, DIRENT, 0);
  }

  /** create of inode i, new and empty, as a file or a directory in directory d with its entry at off: at most nine
      blocks. */
  method CreateBlocks(fs: FileSystem, i: int, d: int, off: int, isDir: bool, entry: seq<int>, dot: seq<int>,
        dotdot: seq<int>)
    returns (ok: bool)
    requires fs.Valid() && i in fs.inodes && d in fs.inodes && i != d && fs.inodes[i].size == 0 && fs.logged == {}
    requires 0 <= off <= fs.inodes[d].size && off % DIRENT == 0 && off + DIRENT <= MAXFILE * BSIZE
    requires |entry| == |dot| == |dotdot| == DIRENT
    requires forall k :: 0 <= k < DIRENT ==> 0 <= entry[k] < 256 && 0 <= dot[k] < 256 && 0 <= dotdot[k] < 256
    modifies fs`used, fs`data, fs`inodes, fs`owner, fs`logged
    ensures ok ==> fs.Valid() && |fs.logged| <= if isDir then 9 else 6
  {
    hide FileSystem.Valid, EntryBlocks, FilesOk, Owned;
    Iupdate(fs, i);
    ghost var x, y, z := {}, {}, {};
    ok := true;
    if isDir {
      ok, x, y := FillDir(fs, i, d, dot, dotdot);
    }
    if ok {
      AtMostFour(fs, d, off);
      ok, z := PutEntry(fs, d, off, entry);
    }
    if ok && isDir {
      Nine(fs.logged, fs.Iblock(i), fs.Iblock(d), x, y, z);
    } else if ok {
      Six(fs.logged, fs.Iblock(i), fs.Iblock(d), z);
    }
  }

  // ----- a file that is too spread out

  /** A disk of thirteen bitmap blocks whose only file has a block in the range of each but the first. */
  function Spread(): Disk {
    Disk(BPB,
         seq(13 * BPB, b => b < BPB || b % BPB == 0),
         seq(13 * BPB, b => Zeros()),
         map[1 := Inode(2, NDIRECT * BSIZE, seq(NDIRECT + 1, k => if k < NDIRECT then (k + 1) * BPB else 0))],
         map b | BPB <= b < 13 * BPB && b % BPB == 0 :: Slot(1, b / BPB - 1))
  }

  lemma SpreadAt(k: int)
    requires 0 <= k < SLOTS
    ensures Shaped(Spread()) && At(Spread(), 1, k) == if k < NDIRECT then (k + 1) * BPB else 0
  {
  }

  lemma SpreadOwned()
    ensures Owned(Spread(), {}) && Shaped(Spread()) && FilesOk(Spread())
  {
    var d := Spread();
    SpreadAt(0);
    forall k | 0 <= k < SLOTS ensures At(d, 1, k) == if k < NDIRECT then (k + 1) * BPB else 0 {
      SpreadAt(k);
    }
    forall b | b in d.owner
      ensures && d.start <= b < |d.used| && d.used[b] && d.owner[b].inum in d.inodes && 0 <= d.owner[b].k < SLOTS
              && At(d, d.owner[b].inum, d.owner[b].k) == b
    {
      assert b == b / BPB * BPB;
    }
    assert FileOk(d, 1);
  }

  lemma SpreadBits(fs: FileSystem, m: int)
    ensures Bits(m, fs.OwnedBy(Spread(), 1)) == Range(m + 1, m + 13)
  {
    var own := fs.OwnedBy(Spread(), 1);
    forall q ensures q in Bits(m, own) <==> q in Range(m + 1, m + 13) {
      assert Within(q, m + 1, m + 13) <==> m + 1 <= q < m + 13;
      if m + 1 <= q < m + 13 {
        assert (q - m) * BPB in own && (q - m) * BPB / BPB + m == q;
      }
    }
  }

  /** The last reference to that file, when it has no links left, is given up in an operation of its own (fileclose):
      it logs thirteen blocks, more than are set aside for it. */
  method CloseOverruns(opBlocks: int) returns (fs: FileSystem)
    requires opBlocks <= 12
    ensures fresh(fs) && fs.maxOp == opBlocks && fs.Valid() && fs.Regions() && |fs.logged| == 13
  {
    hide Owned, FilesOk, Bits, FileSystem.OwnedBy, Contents, Range;
    SpreadOwned();
    fs := new FileSystem.Mount(Spread(), 33, 32, opBlocks);
    SpreadBits(fs, 33);
    RangeCard(34, 46);
    NotInRange(32, 34, 46);
    fs.Iput(1, 1, 0);
    assert {} + Range(34, 46) + {32} == Range(34, 46) + {32};
  }

  lemma NotInRange(q: int, lo: int, hi: int)
    requires q < lo
    ensures q !in Range(lo, hi)
  {
  }
}
