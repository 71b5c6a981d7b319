/**
 kernel/fs.c: allocating and freeing blocks, mapping file blocks, reading, writing and truncating
 files, with the loops of the source; and the chunked writes of kernel/file.c.  The ghost field
 `logged` collects the blocks passed to log_write since the operation began.
 */
module Files {
  import opened FsDisk
  import opened FileLog

  /** Inodes per block. */
  const IPB: int := 16

  class FileSystem {
    const start: int           // first data block
    const bmapStart: int
    const inodeStart: int
    const maxOp: int           // MAXOPBLOCKS: the blocks an operation may log
    var used: seq<bool>
    var data: seq<Block>
    var inodes: map<int, Inode>
    ghost var owner: map<int, Slot>
    ghost var logged: set<int>

    ghost function D(): Disk
      reads this
    {
      Disk(start, used, data, inodes, owner)
    }

    ghost predicate Valid()
      reads this
    {
      Owned(D(), {}) && FilesOk(D())
    }

    /** The inode blocks, the bitmap and the data blocks follow each other. */
    ghost predicate Regions()
      reads this`used, this`inodes
    {
      && 0 <= inodeStart && bmapStart + BitCount(|used|) <= start
      && forall i :: i in inodes ==> 0 <= i && Iblock(i) < bmapStart
    }

    /** A formatted disk of n blocks with one empty file for each inode number in inums. */
    constructor (n: int, first: int, bitmap: int, inodeBlocks: int, inums: set<int>, opBlocks: int)
      requires 0 < first <= n < UINT
      ensures Valid() && start == first && |used| == n && bmapStart == bitmap && inodeStart == inodeBlocks
              && maxOp == opBlocks
      ensures inodes.Keys == inums && forall i :: i in inums ==> Contents(D(), i) == []
    {
      start, bmapStart, inodeStart, maxOp := first, bitmap, inodeBlocks, opBlocks;
      used := seq(n, b => b < first);
      data := seq(n, b => Zeros());
      inodes := map i | i in inums :: Inode(0, 0, seq(NDIRECT + 1, k => 0));
      owner, logged := map[], {};
    }

    /** A disk found in the state d. */
    constructor Mount(d: Disk, bitmap: int, inodeBlocks: int, opBlocks: int)
      ensures D() == d && bmapStart == bitmap && inodeStart == inodeBlocks && maxOp == opBlocks && logged == {}
    {
      start, bmapStart, inodeStart, maxOp := d.start, bitmap, inodeBlocks, opBlocks;
      used, data, inodes := d.used, d.data, d.inodes;
      owner, logged := d.owner, {};
    }

    /** Bitmap block holding b's bit, and inode block holding inode i. */
    function Bblock(b: int): int { b / BPB + bmapStart }
    function Iblock(i: int): int { i / IPB + inodeStart }

    /** Allocate a zeroed block: the first one whose bit is clear.  ok is false where the source panics
        because there is none. */
    method Balloc() returns (ok: bool, b: int)
      requires Owned(D(), {})
      modifies this`used, this`data, this`logged
      ensures ok ==> start <= b < |used| == |old(used)| && !old(used)[b] && forall c :: 0 <= c < b ==> old(used)[c]
      ensures ok ==> D() == Take(old(D()), b) && logged == old(logged) + {Bblock(b), b}
      ensures !ok ==> D() == old(D()) && logged == old(logged) && forall c :: 0 <= c < |used| ==> used[c]
    {
      var first := 0;
      while first < |used|
        invariant 0 <= first && first % BPB == 0
        invariant forall c :: 0 <= c < first && c < |used| ==> used[c]
      {
        var bi := 0;
        while bi < BPB && first + bi < |used|
          invariant 0 <= bi <= BPB
          invariant forall c :: 0 <= c < first + bi && c < |used| ==> used[c]
        {
          if !used[first + bi] {
            b := first + bi;
            used := used[b := true];
            logged := logged + {first / BPB + bmapStart};
            data := data[b := Zeros()];
            logged := logged + {b};
            BitBlock(first, bi);
            return true, b;
          }
          bi := bi + 1;
        }
        first := first + BPB;
      }
      return false, 0;
    }

    lemma BitBlock(first: int, bi: int)
      requires 0 <= first && first % BPB == 0 && 0 <= bi < BPB
      ensures (first + bi) / BPB == first / BPB
    {
    }

    /** An empty slot addrs[k] of inode i (direct, or the indirect block) gets a new block. */
    method FillAddr(i: int, k: int) returns (ok: bool, b: int)
      requires Owned(D(), {}) && i in inodes && 0 <= k <= INDIRECT && At(D(), i, k) == 0
      modifies this`used, this`data, this`inodes, this`owner, this`logged
      ensures Owned(D(), {}) && SameFiles(old(D()), D()) && inodes.Keys == old(inodes).Keys
      ensures ok ==> b != 0 && At(D(), i, k) == b && Fills(old(D()), D(), i, {k})
      ensures ok ==> logged == old(logged) + FillLog(D(), i, {k}, bmapStart)
      ensures !ok ==> Full(D()) && D() == old(D()) && logged == old(logged)
    {
      hide Owned, SameFiles, Fills, FillLog;
      ghost var d := D();
      OwnedShape(d);
      SameFilesRefl(d);
      ok, b := Balloc();
      if ok {
        NotOwned(d, b);
        GiveAddr(d, i, k, b);
        inodes := inodes[i := inodes[i].(addrs := inodes[i].addrs[k := b])];
        owner := owner[b := Slot(i, k)];
        assert D() == SetAddr(Take(d, b), i, k, b);
        OneSlot(d, D(), i, k, b, bmapStart);
      }
    }

    lemma NotOwned(d: Disk, b: int)
      requires Owned(d, {}) && 0 <= b < |d.used| && !d.used[b]
      ensures b !in d.owner && 0 < d.start <= b
    {
    }

    /** Slot k of inode i is given block b, and nothing else. */
    lemma OneSlot(d: Disk, d': Disk, i: int, k: int, b: int, bmapStart: int)
      requires Shaped(d) && Owned(d', {}) && i in d.inodes && i in d'.inodes && 0 <= k < SLOTS
      requires At(d, i, k) == 0 && At(d', i, k) == b != 0 && b !in d.owner && d'.owner == d.owner[b := Slot(i, k)]
      requires forall k' :: 0 <= k' < SLOTS && k' != k ==> At(d', i, k') == At(d, i, k')
      requires d'.start == d.start && |d'.used| == |d.used|
      ensures Fills(d, d', i, {k})
      ensures k <= INDIRECT ==> FillLog(d', i, {k}, bmapStart) == {b / BPB + bmapStart, b}
      ensures k > INDIRECT ==> FillLog(d', i, {k}, bmapStart) == {b / BPB + bmapStart, b, At(d', i, INDIRECT)}
    {
      hide Owned;
      assert Shaped(d') by { OwnedShape(d'); }
      assert News(d', i, {k}) == {b};
      assert Bits(bmapStart, {b}) == {b / BPB + bmapStart};
      if k > INDIRECT {
        assert k in {k};
        assert Deep({k});
      }
    }

    lemma OwnedShape(d: Disk)
      requires Owned(d, {})
      ensures Shaped(d)
    {
    }

    lemma SameFilesRefl(d: Disk)
      requires Shaped(d)
      ensures SameFiles(d, d)
    {
    }

    /** An empty entry j of inode i's indirect block gets a new block. */
    method FillEntry(i: int, j: int) returns (ok: bool, b: int)
      requires Owned(D(), {}) && i in inodes && 0 <= j < NINDIRECT
      requires At(D(), i, INDIRECT) != 0 && At(D(), i, INDIRECT + 1 + j) == 0
      modifies this`used, this`data, this`owner, this`logged
      ensures Owned(D(), {}) && SameFiles(old(D()), D()) && inodes.Keys == old(inodes).Keys
      ensures ok ==> b != 0 && At(D(), i, INDIRECT + 1 + j) == b && Fills(old(D()), D(), i, {INDIRECT + 1 + j})
      ensures ok ==> logged == old(logged) + FillLog(D(), i, {INDIRECT + 1 + j}, bmapStart)
      ensures !ok ==> Full(D()) && D() == old(D()) && logged == old(logged)
    {
      hide Owned, SameFiles, Fills, FillLog;
      ghost var d := D();
      OwnedShape(d);
      SameFilesRefl(d);
      var ind := inodes[i].addrs[INDIRECT];
      ok, b := Balloc();
      if ok {
        NotOwned(d, b);
        GiveEntry(d, i, j, b);
        data := data[ind := Set32(data[ind], j, b)];
        logged := logged + {ind};
        owner := owner[b := Slot(i, INDIRECT + 1 + j)];
        assert D() == SetEntry(Take(d, b), i, j, b);
        OneSlot(d, D(), i, INDIRECT + 1 + j, b, bmapStart);
      }
    }

    /** The disk block of the bn-th block of inode i, allocated if there is none, with the indirect block
        before it if that is missing.  Exactly the empty slots it needs are filled and logged; when the disk
        runs full the source panics with some of them left empty. */
    method Bmap(i: int, bn: int) returns (ok: bool, addr: int, ghost filled: set<int>)
      requires Owned(D(), {}) && i in inodes && 0 <= bn < MAXFILE
      modifies this`used, this`data, this`inodes, this`owner, this`logged
      ensures Owned(D(), {}) && SameFiles(old(D()), D()) && inodes.Keys == old(inodes).Keys
      ensures Fills(old(D()), D(), i, filled) && logged == old(logged) + FillLog(D(), i, filled, bmapStart)
      ensures ok ==> addr != 0 && At(D(), i, FileSlot(bn)) == addr && filled == Wanted(old(D()), i, bn, bn + 1)
      ensures !ok ==> Full(D()) && filled < Wanted(old(D()), i, bn, bn + 1)
      ensures At(old(D()), i, FileSlot(bn)) != 0 ==> ok && D() == old(D()) && logged == old(logged)
    {
      hide Owned, SameFiles, Fills, FillLog, Wanted, Full;
      ghost var d := D();
      OwnedShape(d);
      SameFilesRefl(d);
      FillsNone(d, i, bmapStart);
      WantedOne(d, i, bn);
      ok, filled := true, {};
      if bn < NDIRECT {
        addr := inodes[i].addrs[bn];
        if addr == 0 {
          ok, addr := FillAddr(i, bn);
          filled := if ok then {bn} else {};
        }
      } else {
        ok, addr, filled := BmapIndirect(i, bn - NDIRECT);
      }
    }

    lemma WantedOne(d: Disk, i: int, bn: int)
      requires Shaped(d) && i in d.inodes && 0 <= bn < MAXFILE
      ensures At(d, i, FileSlot(bn)) != 0 ==> Wanted(d, i, bn, bn + 1) == {}
      ensures At(d, i, FileSlot(bn)) == 0 && (bn < NDIRECT || At(d, i, INDIRECT) != 0) ==>
                Wanted(d, i, bn, bn + 1) == {FileSlot(bn)}
      ensures bn >= NDIRECT && At(d, i, INDIRECT) == 0 ==> Wanted(d, i, bn, bn + 1) == {INDIRECT, FileSlot(bn)}
    {
      var W := Wanted(d, i, bn, bn + 1);
      forall k | k in W ensures k == FileSlot(bn) || (k == INDIRECT && bn >= NDIRECT && At(d, i, INDIRECT) == 0) {
        assert Touches(k, bn, bn + 1);
      }
      assert Touches(FileSlot(bn), bn, bn + 1);
      assert bn >= NDIRECT ==> Touches(INDIRECT, bn, bn + 1);
    }

    method BmapIndirect(i: int, j: int) returns (ok: bool, addr: int, ghost filled: set<int>)
      requires Owned(D(), {}) && i in inodes && 0 <= j < NINDIRECT
      modifies this`used, this`data, this`inodes, this`owner, this`logged
      ensures Owned(D(), {}) && SameFiles(old(D()), D()) && inodes.Keys == old(inodes).Keys
      ensures Fills(old(D()), D(), i, filled) && logged == old(logged) + FillLog(D(), i, filled, bmapStart)
      ensures ok ==>
                && addr != 0 && At(D(), i, FileSlot(NDIRECT + j)) == addr
                && filled == Wanted(old(D()), i, NDIRECT + j, NDIRECT + j + 1)
      ensures !ok ==> Full(D()) && filled < Wanted(old(D()), i, NDIRECT + j, NDIRECT + j + 1)
      ensures At(old(D()), i, FileSlot(NDIRECT + j)) != 0 ==> ok && D() == old(D()) && logged == old(logged)
    {
      hide Owned, SameFiles, Fills, FillLog, Wanted, Full;
      ghost var d := D();
      OwnedShape(d);
      SameFilesRefl(d);
      FillsNone(d, i, bmapStart);
      WantedOne(d, i, NDIRECT + j);
      filled := {};
      var ind := inodes[i].addrs[INDIRECT];
      if ind == 0 {
        assert At(d, i, INDIRECT + 1 + j) == 0;
        ok, ind := FillAddr(i, INDIRECT);
        if !ok {
          return false, 0, {};
        }
        filled := {INDIRECT};
      }
      ghost var d1, log1 := D(), logged;
      OwnedShape(d1);
      FilledSlot(d, d1, i, filled, INDIRECT + 1 + j);
      addr := Get32(data[ind], j);
      ok := true;
      if addr == 0 {
        ok, addr := FillEntry(i, j);
        OwnedShape(D());
        SameFilesTrans(d, d1, D());
        if ok {
          FillsThen(d, d1, D(), i, filled, {INDIRECT + 1 + j});
          LogThen(d, d1, D(), i, filled, {INDIRECT + 1 + j}, bmapStart);
          filled := filled + {INDIRECT + 1 + j};
        }
      }
    }

    /** A slot that was not filled holds what it held. */
    lemma FilledSlot(d: Disk, d': Disk, i: int, W: set<int>, k: int)
      requires Shaped(d) && Shaped(d') && Fills(d, d', i, W) && 0 <= k < SLOTS && k !in W
      ensures At(d', i, k) == At(d, i, k)
    {
    }

    // ----- reading

    lemma ReadByte(d: Disk, i: int, cur: int, m: int, y: int)
      requires Owned(d, {}) && i in d.inodes && FileOk(d, i)
      requires 0 <= cur && 0 <= y < m && cur % BSIZE + m <= BSIZE && cur + m <= d.inodes[i].size
      ensures cur / BSIZE < MAXFILE && 0 < At(d, i, FileSlot(cur / BSIZE)) < |d.data|
      ensures |d.data[At(d, i, FileSlot(cur / BSIZE))]| == BSIZE
      ensures d.data[At(d, i, FileSlot(cur / BSIZE))][cur % BSIZE + y] == Contents(d, i)[cur + y]
    {
      DivMod(cur);
      MappedInside(d, {}, i, FileSlot(cur / BSIZE));
      SameBlock(cur, m, cur + y);
      DivMod(cur + y);
    }

    /** The bytes of a file inside one of its blocks. */
    lemma ReadSlice(d: Disk, i: int, cur: int, m: int)
      requires Owned(d, {}) && i in d.inodes && FileOk(d, i)
      requires 0 <= cur && 0 < m && cur % BSIZE + m <= BSIZE && cur + m <= d.inodes[i].size
      ensures cur / BSIZE < MAXFILE && 0 < At(d, i, FileSlot(cur / BSIZE)) < |d.data|
      ensures |d.data[At(d, i, FileSlot(cur / BSIZE))]| == BSIZE
      ensures d.data[At(d, i, FileSlot(cur / BSIZE))][cur % BSIZE..cur % BSIZE + m] == Contents(d, i)[cur..cur + m]
    {
      ReadByte(d, i, cur, m, 0);
      hide Owned, FileOk, At, Contents;
      var blk := d.data[At(d, i, FileSlot(cur / BSIZE))];
      var a, c := blk[cur % BSIZE..cur % BSIZE + m], Contents(d, i)[cur..cur + m];
      forall y | 0 <= y < |a|
        ensures a[y] == c[y]
      {
        ReadByte(d, i, cur, m, y);
      }
    }

    lemma Append(s: seq<int>, off: int, a: int, b: int)
      requires 0 <= off <= a <= b <= |s|
      ensures s[off..a] + s[a..b] == s[off..b]
    {
    }

    lemma AppendPart(s: seq<int>, off: int, a: int, b: int, c: int)
      requires 0 <= off <= a <= c <= b <= |s|
      ensures s[off..a] + s[a..b][..c - a] == s[off..c]
    {
    }

    /** Read up to n bytes at off; avail bytes of the destination can be written.  The bytes delivered
        are exactly those of the file, and no block is ever allocated. */
    method Readi(i: int, off: int, n: int, avail: int) returns (tot: int, out: seq<int>)
      requires Valid() && i in inodes && 0 <= off < UINT && 0 <= n < UINT && 0 <= avail
      modifies this`used, this`data, this`inodes, this`owner, this`logged
      ensures D() == old(D()) && logged == old(logged)
      ensures off > inodes[i].size || off + n >= UINT ==> tot == 0 && out == []
      ensures off <= inodes[i].size && off + n < UINT ==>
                var want := if off + n > inodes[i].size then inodes[i].size - off else n;
                && 0 <= tot <= |out| == (if avail < want then avail else want)
                && out == Contents(D(), i)[off..off + |out|]
                && (tot == want <==> avail >= want)
    {
      hide Owned, FilesOk, FileOk, Contents, At, Shaped;
      ghost var d := D();
      FileOkOf(d, i);
      SizeOf(d, i);
      tot, out := 0, [];
      if off > inodes[i].size || off + n >= UINT {
        return;
      }
      var want := if off + n > inodes[i].size then inodes[i].size - off else n;
      while tot < want
        invariant D() == d && logged == old(logged) && i in inodes
        invariant 0 <= tot <= want && tot <= avail && |out| == tot
        invariant out == Contents(d, i)[off..off + tot]
        decreases want - tot
      {
        var cur := off + tot;
        var m := if want - tot < BSIZE - cur % BSIZE then want - tot else BSIZE - cur % BSIZE;
        var bytes := ReadPart(i, cur, m);
        if avail - tot < m {
          AppendPart(Contents(d, i), off, cur, cur + m, off + avail);
          out := out + bytes[..avail - tot];
          return;
        }
        Append(Contents(d, i), off, cur, cur + m);
        out := out + bytes;
        tot := tot + m;
      }
    }

    /** One turn of readi's loop: map the block and copy m bytes of it. */
    method ReadPart(i: int, cur: int, m: int) returns (bytes: seq<int>)
      requires Valid() && i in inodes && 0 <= cur && 0 < m && cur + m <= inodes[i].size && cur % BSIZE + m <= BSIZE
      modifies this`used, this`data, this`inodes, this`owner, this`logged
      ensures D() == old(D()) && logged == old(logged)
      ensures bytes == Contents(D(), i)[cur..cur + m]
    {
      ghost var d := D();
      FileOkOf(d, i);
      hide Owned, FilesOk, FileOk, Contents, At, Shaped;
      ReadSlice(d, i, cur, m);
      var ok, addr, _ := Bmap(i, cur / BSIZE);
      bytes := data[addr][cur % BSIZE..cur % BSIZE + m];
    }

    lemma SizeOf(d: Disk, i: int)
      requires Shaped(d) && i in d.inodes && FileOk(d, i)
      ensures 0 <= d.inodes[i].size <= MAXFILE * BSIZE && |Contents(d, i)| == d.inodes[i].size
    {
    }

    lemma FileOkOf(d: Disk, i: int)
      requires Owned(d, {}) && FilesOk(d) && i in d.inodes
      ensures Shaped(d) && FileOk(d, i)
    {
    }

    // ----- writing

    /** One turn of writei's loop: map the block, copy the bytes that can be read, log the block if all
        of them could. */
    method WriteBlock(i: int, cur: int, bytes: seq<int>, whole: bool)
      returns (ok: bool, ghost mid: Disk, ghost filled: set<int>)
      requires Owned(D(), {}) && i in inodes
      requires 0 <= cur < MAXFILE * BSIZE && cur % BSIZE + |bytes| <= BSIZE && cur + |bytes| <= MAXFILE * BSIZE
      requires forall k :: 0 <= k < |bytes| ==> 0 <= bytes[k] < 256
      modifies this`used, this`data, this`inodes, this`owner, this`logged
      ensures Owned(D(), {}) && inodes.Keys == old(inodes).Keys && Fills(old(D()), D(), i, filled)
      ensures ok ==> Owned(mid, {}) && SameFiles(old(D()), mid) && i in mid.inodes && OneBlock(mid, D(), i, cur, bytes)
      ensures ok ==> filled == Wanted(old(D()), i, cur / BSIZE, cur / BSIZE + 1)
      ensures !ok ==> Full(D()) && filled < Wanted(old(D()), i, cur / BSIZE, cur / BSIZE + 1)
      ensures ok ==>
                logged == old(logged) + FillLog(D(), i, filled, bmapStart)
                          + (if whole then {At(D(), i, FileSlot(cur / BSIZE))} else {})
    {
      hide Owned, SameFiles, Fills, FillLog, Wanted, Full;
      ghost var d := D();
      OwnedShape(d);
      var bn := cur / BSIZE;
      var addr;
      ok, addr, filled := Bmap(i, bn);
      mid := D();
      OwnedShape(mid);
      if !ok {
        return;
      }
      MappedInside(mid, {}, i, FileSlot(bn));
      data := data[addr := Overwrite(data[addr], cur % BSIZE, bytes)];
      OneBlockBytes(mid, D(), i, cur, bytes);
      SetDataOwned(mid, addr, Overwrite(mid.data[addr], cur % BSIZE, bytes));
      OwnedShape(D());
      assert D() == SetData(mid, addr, Overwrite(mid.data[addr], cur % BSIZE, bytes));
      DataFills(d, mid, D(), i, filled, bmapStart);
      if whole {
        logged := logged + {addr};
      }
    }

    /** Writing into a data block fills nothing. */
    lemma DataFills(d: Disk, mid: Disk, d': Disk, i: int, W: set<int>, bmapStart: int)
      requires Shaped(d) && Shaped(mid) && Shaped(d') && Fills(d, mid, i, W) && i in d'.inodes
      requires d'.owner == mid.owner && d'.start == mid.start && |d'.used| == |mid.used|
      requires forall k :: 0 <= k < SLOTS ==> At(d', i, k) == At(mid, i, k)
      ensures Fills(d, d', i, W) && FillLog(d', i, W, bmapStart) == FillLog(mid, i, W, bmapStart)
    {
      assert Fills(mid, d', i, {}) by {
        assert News(d', i, {}) == {};
      }
      assert W + {} == W;
      FillsThen(d, mid, d', i, W, {});
      LogThen(d, mid, d', i, W, {}, bmapStart);
      FillsNone(d', i, bmapStart);
    }

    /** Bytes of a write of n bytes at off that lie in blocks copied whole, when avail can be read. */
    function Done(off: int, n: int, avail: int): int {
      if avail >= n then n
      else if (off + avail) / BSIZE * BSIZE > off then (off + avail) / BSIZE * BSIZE - off
      else 0
    }

    /** The bytes of src that can be copied when avail of them can be read. */
    function Copied(src: seq<int>, avail: int): seq<int>
      requires 0 <= avail
    {
      src[..if avail < |src| then avail else |src|]
    }

    function NewSize(size: int, off: int, n: int, avail: int): int {
      if off + Done(off, n, avail) > size then off + Done(off, n, avail) else size
    }

    /** The block after the last one that the loop maps, and after the last one it logs. */
    function Reached(off: int, n: int, avail: int): int {
      if avail >= n then (off + n + BSIZE - 1) / BSIZE else (off + avail) / BSIZE + 1
    }

    function Logged(off: int, n: int, avail: int): int {
      if avail >= n then (off + n + BSIZE - 1) / BSIZE else (off + avail) / BSIZE
    }

    /** Bytes off..off + n - 1 have some in block bn. */
    predicate Overlaps(bn: int, off: int, n: int) { bn * BSIZE < off + n && off < (bn + 1) * BSIZE }

    /** When avail of n bytes can be read, the blocks that writei maps are those with bytes of the write up to the one
        where the copy fails, those that it logs are the ones whose bytes were all copied, and the size counts all
        bytes up to the last block boundary that was reached. */
    lemma BlocksOfWrite(off: int, n: int, avail: int, bn: int)
      requires 0 <= off && 0 < n && 0 <= avail
      ensures off / BSIZE <= bn < Reached(off, n, avail) <==> Overlaps(bn, off, n) && bn * BSIZE <= off + avail
      ensures off / BSIZE <= bn < Logged(off, n, avail) <==>
                && Overlaps(bn, off, n)
                && (if off + n < (bn + 1) * BSIZE then off + n else (bn + 1) * BSIZE) <= off + avail
      ensures avail < n ==> 0 <= Done(off, n, avail) <= avail
      ensures avail < n && off < bn * BSIZE <= off + avail ==> bn * BSIZE <= off + Done(off, n, avail)
      ensures avail < n && Done(off, n, avail) > 0 ==> (off + Done(off, n, avail)) % BSIZE == 0
      ensures avail >= n ==> Done(off, n, avail) == n
    {
    }

    /** The loop of writei has mapped the blocks of file i from that of byte off up to hi, filling the slots W,
        and logged those up to w, in blocks of `base` and after. */
    ghost predicate Mapping(d0: Disk, i: int, off: int, base: set<int>, hi: int, w: int)
      requires Shaped(d0) && i in d0.inodes
      reads this
    {
      && Shaped(D()) && i in inodes && 0 <= off / BSIZE <= w <= hi <= MAXFILE
      && Fills(d0, D(), i, Wanted(d0, i, off / BSIZE, hi))
      && logged == base + FillLog(D(), i, Wanted(d0, i, off / BSIZE, hi), bmapStart) + Data(D(), i, off / BSIZE, w)
    }

    /** What the loop of writei has done after copying src to bytes off.. of file i of disk d0. */
    ghost predicate Writing(d0: Disk, i: int, off: int, src: seq<int>, base: set<int>, hi: int, w: int)
      reads this
    {
      && Owned(d0, {}) && Owned(D(), {}) && i in d0.inodes && i in inodes && 0 <= off
      && Wrote(d0, D(), i, off, src) && Mapping(d0, i, off, base, hi, w)
    }

    /** One turn of the loop. */
    method WriteTurn(ghost d0: Disk, i: int, off: int, ghost src: seq<int>, cur: int, bytes: seq<int>, whole: bool,
          ghost base: set<int>)
      returns (ok: bool)
      requires Writing(d0, i, off, src, base, cur / BSIZE, cur / BSIZE) && cur == off + |src|
      requires cur < MAXFILE * BSIZE && cur % BSIZE + |bytes| <= BSIZE && cur + |bytes| <= MAXFILE * BSIZE
      requires forall k :: 0 <= k < |bytes| ==> 0 <= bytes[k] < 256
      modifies this`used, this`data, this`inodes, this`owner, this`logged
      ensures Owned(D(), {}) && inodes.Keys == old(inodes).Keys
      ensures ok ==>
                Writing(d0, i, off, src + bytes, base, cur / BSIZE + 1, if whole then cur / BSIZE + 1 else cur / BSIZE)
      ensures ok ==> |Wanted(d0, i, off / BSIZE, cur / BSIZE + 1)| <= |FreeBlocks(d0)|
      ensures !ok ==> |FreeBlocks(d0)| < |Wanted(d0, i, off / BSIZE, cur / BSIZE + 1)|
    {
      hide Owned, SameFiles, Wrote, OneBlock, Fills, FillLog, Wanted, Data, Full, FreeBlocks;
      ghost var d := D();
      ghost var mid, filled;
      OwnedShape(d);
      OwnedShape(d0);
      ghost var lo, bn := off / BSIZE, cur / BSIZE;
      WantedMore(d0, d, i, lo, bn);
      ok, mid, filled := WriteBlock(i, cur, bytes, whole);
      OwnedShape(D());
      FillsThen(d0, d, D(), i, Wanted(d0, i, lo, bn), filled);
      if ok {
        OwnedShape(mid);
        WroteSame(d0, d, mid, i, off, src);
        WroteMore(d0, mid, D(), i, off, src, bytes);
        LogThen(d0, d, D(), i, Wanted(d0, i, lo, bn), filled, bmapStart);
        MappedStay(d0, d, D(), i, lo, bn, filled);
        DataMore(D(), i, lo, bn);
        EnoughBlocks(d0, D(), i, Wanted(d0, i, lo, bn + 1));
      } else {
        WantedApart(d0, d, i, lo, bn);
        TooFewBlocks(d0, D(), i, Wanted(d0, i, lo, bn), filled, Wanted(d, i, bn, bn + 1));
      }
    }

    /** Blocks mapped by earlier turns are still where they were. */
    lemma MappedStay(d0: Disk, d: Disk, d': Disk, i: int, lo: int, hi: int, V: set<int>)
      requires Shaped(d0) && Shaped(d) && Shaped(d') && i in d0.inodes && 0 <= lo <= hi <= MAXFILE
      requires Fills(d0, d, i, Wanted(d0, i, lo, hi)) && Fills(d, d', i, V)
      ensures Data(d', i, lo, hi) == Data(d, i, lo, hi)
    {
      forall bn | lo <= bn < hi ensures At(d', i, FileSlot(bn)) == At(d, i, FileSlot(bn)) {
        var k := FileSlot(bn);
        assert Touches(k, lo, hi);
        assert At(d, i, k) != 0;
      }
      DataSame(d, d', i, lo, hi);
    }

    lemma EnoughBlocks(d0: Disk, d: Disk, i: int, W: set<int>)
      requires Owned(d0, {}) && Owned(d, {}) && Shaped(d0) && Shaped(d) && Fills(d0, d, i, W)
      ensures |W| <= |FreeBlocks(d0)|
    {
      NewsWereFree(d0, d, i, W);
    }

    lemma TooFewBlocks(d0: Disk, d: Disk, i: int, W: set<int>, V: set<int>, V': set<int>)
      requires Owned(d0, {}) && Owned(d, {}) && V < V' && Full(d) && Fills(d0, d, i, W + V)
      requires W !! V'
      ensures |FreeBlocks(d0)| < |W + V'|
    {
      NewsWereFree(d0, d, i, W + V);
      CardGrows(W, V, V');
    }

    lemma CardGrows(W: set<int>, V: set<int>, V': set<int>)
      requires V < V' && W !! V'
      ensures |W + V| < |W + V'|
    {
      var more := V' - V;
      assert W + V' == (W + V) + more;
      assert (W + V) !! more;
      assert |more| > 0;
      assert V' == V + more;
    }

    lemma WantedApart(d0: Disk, d: Disk, i: int, lo: int, hi: int)
      requires Shaped(d0) && Shaped(d) && i in d0.inodes && Fills(d0, d, i, Wanted(d0, i, lo, hi))
      ensures Wanted(d0, i, lo, hi) !! Wanted(d, i, hi, hi + 1)
    {
    }

    /** After some turns, done of n bytes are copied and the blocks up to hi are mapped: every turn but the last
        ends at a block boundary. */
    ghost predicate Paced(off: int, n: int, done: int, hi: int) {
      && off / BSIZE <= hi && (hi == off / BSIZE ==> done == 0)
      && (hi > off / BSIZE ==> (off + done == hi * BSIZE || done == n) && (hi - 1) * BSIZE < off + done <= hi * BSIZE)
    }

    function Chunk(cur: int, left: int): int {
      if left < BSIZE - cur % BSIZE then left else BSIZE - cur % BSIZE
    }

    lemma PaceStep(off: int, n: int, done: int, hi: int, avail: int)
      requires 0 <= off && 0 <= done < n && Paced(off, n, done, hi) && done <= avail
      ensures hi == (off + done) / BSIZE && hi + 1 <= Reached(off, n, avail)
      ensures Paced(off, n, done + Chunk(off + done, n - done), hi + 1)
      ensures avail - done < Chunk(off + done, n - done) ==>
                done == Done(off, n, avail) && hi == Logged(off, n, avail) && hi + 1 == Reached(off, n, avail)
    {
    }

    lemma PaceEnd(off: int, n: int, hi: int, avail: int)
      requires 0 <= off && 0 < n && Paced(off, n, n, hi) && n <= avail
      ensures hi == Reached(off, n, avail) == Logged(off, n, avail) && Done(off, n, avail) == n
    {
    }

    lemma WantedGrows(d: Disk, i: int, lo: int, hi: int, end: int)
      requires Shaped(d) && i in d.inodes && hi <= end
      ensures |Wanted(d, i, lo, hi)| <= |Wanted(d, i, lo, end)|
    {
      forall k | k in Wanted(d, i, lo, hi) ensures k in Wanted(d, i, lo, end) {
        assert Touches(k, lo, end);
      }
      CardSub(Wanted(d, i, lo, hi), Wanted(d, i, lo, end));
    }

    lemma WritingStart(d0: Disk, i: int, off: int)
      requires Owned(D(), {}) && d0 == D() && i in inodes && 0 <= off <= MAXFILE * BSIZE
      ensures Writing(d0, i, off, [], logged, off / BSIZE, off / BSIZE)
    {
      WroteNothing(d0, i, off);
      FillsNone(d0, i, bmapStart);
      WantedNone(d0, i, off / BSIZE);
      assert Data(d0, i, off / BSIZE, off / BSIZE) == {};
    }

    /** The loop of writei. */
    method WriteLoop(ghost d0: Disk, i: int, off: int, src: seq<int>, avail: int) returns (ok: bool, done: int)
      requires Owned(D(), {}) && d0 == D() && i in inodes && 0 <= off && src != []
      requires off + |src| <= MAXFILE * BSIZE && 0 <= avail && forall k :: 0 <= k < |src| ==> 0 <= src[k] < 256
      modifies this`used, this`data, this`inodes, this`owner, this`logged
      ensures Owned(D(), {}) && inodes.Keys == old(inodes).Keys
      ensures ok ==> Writing(d0, i, off, Copied(src, avail), old(logged), Reached(off, |src|, avail),
                Logged(off, |src|, avail))
      ensures ok ==> done == Done(off, |src|, avail)
      ensures ok <==> |Wanted(d0, i, off / BSIZE, Reached(off, |src|, avail))| <= |FreeBlocks(d0)|
    {
      hide Owned, Paced, Done, Reached, Logged, At, Shaped, Writing, Wanted, FreeBlocks;
      WritingStart(d0, i, off);
      OwnedShape(d0);
      PaceStart(off, |src|);
      assert src[..0] == [];
      ghost var lo, hi := off / BSIZE, off / BSIZE;
      done, ok := 0, true;
      while done < |src|
        invariant 0 <= done <= |src| && done <= avail && inodes.Keys == old(inodes).Keys && hi >= lo
        invariant Owned(D(), {}) && Writing(d0, i, off, src[..done], old(logged), hi, hi) && Paced(off, |src|, done, hi)
        invariant hi > lo ==> |Wanted(d0, i, lo, hi)| <= |FreeBlocks(d0)|
        invariant done > 0 ==> hi > lo
        decreases |src| - done
      {
        var cur := off + done;
        var m := Chunk(cur, |src| - done);
        var c := if avail - done < m then avail - done else m;
        PaceStep(off, |src|, done, hi, avail);
        ok := WriteTurn(d0, i, off, src[..done], cur, src[done..done + c], c == m, old(logged));
        if !ok {
          WantedGrows(d0, i, lo, hi + 1, Reached(off, |src|, avail));
          return;
        }
        assert src[..done] + src[done..done + c] == src[..done + c];
        hi := hi + 1;
        if c < m {
          return;
        }
        done := done + m;
      }
      assert src[..done] == src;
      PaceEnd(off, |src|, hi, avail);
    }

    lemma PaceStart(off: int, n: int)
      requires 0 <= off
      ensures Paced(off, n, 0, off / BSIZE)
    {
    }

    /** Which blocks writei maps and logs, for a write that succeeds: it fills the empty slots of the blocks it
        reaches and no others, and logs, besides what was logged before, the new blocks, their bitmap blocks, the
        indirect block if one of its entries is new, the blocks that were copied whole and the inode's block. */
    ghost predicate WriteLogged(d0: Disk, i: int, off: int, n: int, avail: int, base: set<int>)
      requires Owned(d0, {}) && i in d0.inodes && 0 <= off && 0 < n && off + n <= MAXFILE * BSIZE && 0 <= avail
      reads this
    {
      && Owned(D(), {}) && Fills(d0, D(), i, Needed(d0, i, off, n, avail))
      && logged == base + WriteLog(D(), i, off, n, avail, Needed(d0, i, off, n, avail))
    }

    /** The empty slots a write fills. */
    ghost function Needed(d0: Disk, i: int, off: int, n: int, avail: int): set<int>
      requires Shaped(d0) && i in d0.inodes
    {
      Wanted(d0, i, off / BSIZE, Reached(off, n, avail))
    }

    ghost function WriteLog(d: Disk, i: int, off: int, n: int, avail: int, W: set<int>): set<int>
      requires Shaped(d) && i in d.inodes && 0 <= off && 0 < n && off + n <= MAXFILE * BSIZE && 0 <= avail
    {
      FillLog(d, i, W, bmapStart) + Data(d, i, off / BSIZE, Logged(off, n, avail)) + {Iblock(i)}
    }

    /** What writei promises for a write of src at off with avail bytes readable: the file's bytes from off
        on become the bytes that could be copied, the file grows to hold the blocks copied whole, and other
        files keep their contents.  The bytes of a block that was not copied whole are in its buffer only. */
    ghost predicate WriteDone(d0: Disk, i: int, off: int, src: seq<int>, avail: int)
      requires Owned(d0, {}) && FilesOk(d0) && i in d0.inodes && 0 <= off <= d0.inodes[i].size && 0 <= avail
      reads this
    {
      && Valid() && inodes.Keys == d0.inodes.Keys
      && inodes[i].size ==
           NewSize(d0.inodes[i].size, off, |src|, avail) <= |Overlay(Contents(d0, i), off, Copied(src, avail))|
      && Contents(D(), i) == Overlay(Contents(d0, i), off, Copied(src, avail))[..inodes[i].size]
      && (forall j :: j in d0.inodes && j != i ==> Contents(D(), j) == Contents(d0, j))
      && (forall j :: j in d0.inodes ==> inodes[j].kind == d0.inodes[j].kind)
    }

    lemma FinishResult(d0: Disk, d: Disk, i: int, off: int, src: seq<int>, avail: int)
      requires Owned(d0, {}) && FilesOk(d0) && Owned(d, {}) && i in d0.inodes && 0 <= off <= d0.inodes[i].size
      requires 0 <= avail && Wrote(d0, d, i, off, Copied(src, avail))
      requires 0 <= Done(off, |src|, avail) <= |Copied(src, avail)|
      ensures var d' := SetSize(d, i, NewSize(d0.inodes[i].size, off, |src|, avail));
              && Owned(d', {}) && FilesOk(d')
              && d'.inodes[i].size <= |Overlay(Contents(d0, i), off, Copied(src, avail))|
              && Contents(d', i) == Overlay(Contents(d0, i), off, Copied(src, avail))[..d'.inodes[i].size]
              && (forall j :: j in d0.inodes && j != i ==> Contents(d', j) == Contents(d0, j))
              && forall j :: j in d0.inodes ==> d'.inodes[j].kind == d0.inodes[j].kind
    {
      WriteResult(d0, d, i, off, Copied(src, avail), Done(off, |src|, avail),
        NewSize(d0.inodes[i].size, off, |src|, avail));
    }

    /** Set the size after the loop and write the inode back. */
    method WriteFinish(ghost d0: Disk, i: int, off: int, ghost src: seq<int>, ghost avail: int, done: int,
          ghost base: set<int>)
      requires src != [] && 0 <= avail && done == Done(off, |src|, avail) && 0 <= done <= |Copied(src, avail)|
      requires Writing(d0, i, off, Copied(src, avail), base, Reached(off, |src|, avail), Logged(off, |src|, avail))
      requires off <= d0.inodes[i].size && off + |src| <= MAXFILE * BSIZE
      modifies this`inodes, this`logged
      ensures inodes.Keys == d0.inodes.Keys && WriteLogged(d0, i, off, |src|, avail, base)
      ensures FilesOk(d0) ==> WriteDone(d0, i, off, src, avail)
    {
      hide Owned, FilesOk, Contents, Overlay, Wrote, At, Shaped, Copied, Done, Fills, FillLog, Wanted, Data, Reached;
      hide Logged;
      OwnedShape(d0);
      OwnedShape(D());
      ghost var d := D();
      SizeKept(d0, d, i, off, src, avail);
      if off + done > inodes[i].size {
        inodes := inodes[i := inodes[i].(size := off + done)];
      }
      logged := logged + {Iblock(i)};
      ghost var size := NewSize(d0.inodes[i].size, off, |src|, avail);
      assert D() == SetSize(d, i, size);
      SetSizeOwned(d, i, size);
      OwnedShape(D());
      DataFills(d0, d, D(), i, Needed(d0, i, off, |src|, avail), bmapStart);
      ReachedInside(off, |src|, avail);
      DataSame(d, D(), i, off / BSIZE, Logged(off, |src|, avail));
      if FilesOk(d0) {
        FinishResult(d0, d, i, off, src, avail);
      }
    }

    lemma ReachedInside(off: int, n: int, avail: int)
      requires 0 <= off && 0 < n && off + n <= MAXFILE * BSIZE && 0 <= avail
      ensures off / BSIZE <= Logged(off, n, avail) <= Reached(off, n, avail) <= MAXFILE
    {
    }

    lemma SizeKept(d0: Disk, d: Disk, i: int, off: int, src: seq<int>, avail: int)
      requires Owned(d0, {}) && Owned(d, {}) && i in d0.inodes && 0 <= off && 0 <= avail
               && Wrote(d0, d, i, off, Copied(src, avail))
      ensures i in d.inodes && d.inodes[i].size == d0.inodes[i].size && d.inodes.Keys == d0.inodes.Keys
    {
    }

    /** writei.  ok is false where the source panics because the disk is full, which happens exactly when there
        are fewer free blocks than the write needs.  The result is the number of bytes asked for even when
        fewer could be copied. */
    method Writei(i: int, off: int, src: seq<int>, avail: int) returns (ok: bool, r: int)
      requires Owned(D(), {}) && i in inodes && 0 <= off < UINT && |src| < UINT && 0 <= avail
      requires forall k :: 0 <= k < |src| ==> 0 <= src[k] < 256
      modifies this`used, this`data, this`inodes, this`owner, this`logged
      ensures Owned(D(), {}) && inodes.Keys == old(inodes).Keys
      ensures off > old(inodes)[i].size || off + |src| >= UINT || off + |src| > MAXFILE * BSIZE ==>
                ok && r == -1 && D() == old(D()) && logged == old(logged)
      ensures off <= old(inodes)[i].size && off + |src| <= MAXFILE * BSIZE ==> r == |src|
      ensures off <= old(inodes)[i].size && off + |src| <= MAXFILE * BSIZE && src == [] ==>
                ok && D() == old(D()) && logged == old(logged)
      ensures off <= old(inodes)[i].size && off + |src| <= MAXFILE * BSIZE && src != [] ==>
                && (ok <==> |Needed(old(D()), i, off, |src|, avail)| <= |FreeBlocks(old(D()))|)
                && (ok ==> WriteLogged(old(D()), i, off, |src|, avail, old(logged)))
      ensures ok && off <= old(inodes)[i].size && off + |src| <= MAXFILE * BSIZE && old(FilesOk(D())) ==>
                WriteDone(old(D()), i, off, src, avail)
    {
      ghost var d0 := D();
      OwnedShape(d0);
      var n := |src|;
      if off > inodes[i].size || off + n >= UINT || off + n > MAXFILE * BSIZE {
        return true, -1;
      }
      if n == 0 {
        if FilesOk(d0) {
          NothingWritten(d0, i, off, avail);
        }
        return true, 0;
      }
      hide Owned, FilesOk, WriteDone, Writing, WriteLogged, Wanted, Reached, FreeBlocks, Shaped;
      var done;
      DoneInside(off, src, avail);
      ok, done := WriteLoop(d0, i, off, src, avail);
      if ok {
        WriteFinish(d0, i, off, src, avail, done, old(logged));
      }
      r := n;
    }

    lemma DoneInside(off: int, src: seq<int>, avail: int)
      requires 0 <= off && 0 <= avail
      ensures 0 <= Done(off, |src|, avail) <= |Copied(src, avail)|
    {
    }

    lemma NothingWritten(d0: Disk, i: int, off: int, avail: int)
      requires Owned(d0, {}) && FilesOk(d0) && i in d0.inodes && 0 <= off <= d0.inodes[i].size && 0 <= avail
      ensures NewSize(d0.inodes[i].size, off, 0, avail) == d0.inodes[i].size
      ensures Overlay(Contents(d0, i), off, Copied([], avail)) == Contents(d0, i)
    {
    }

    // ----- truncating

    /** bfree.  The precondition is the "freeing free block" panic. */
    method Bfree(b: int)
      requires 0 <= b < |used| && used[b]
      modifies this`used, this`logged
      ensures used == old(used)[b := false] && logged == old(logged) + {Bblock(b)}
    {
      used := used[b := false];
      logged := logged + {b / BPB + bmapStart};
    }

    /** Of the owned blocks `all`, those no longer owned have been freed since base, and their bitmap blocks logged. */
    ghost predicate Freed(all: set<int>, base: set<int>)
      reads this`owner, this`logged
    {
      owner.Keys <= all && logged == base + Bits(bmapStart, all - owner.Keys)
    }

    lemma FreedNone()
      ensures Freed(owner.Keys, logged)
    {
      assert owner.Keys - owner.Keys == {};
      assert Bits(bmapStart, {}) == {};
    }

    /** bfree of a block that has an owner. */
    method FreeOne(ghost all: set<int>, ghost base: set<int>, b: int)
      requires 0 <= b < |used| && used[b] && b in owner && Freed(all, base)
      modifies this`used, this`owner, this`logged
      ensures used == old(used)[b := false] && owner == old(owner) - {b} && Freed(all, base)
    {
      Bfree(b);
      owner := owner - {b};
      assert all - owner.Keys == (all - old(owner).Keys) + {b};
      BitsJoin(bmapStart, all - old(owner).Keys, {b});
      assert Bits(bmapStart, {b}) == {Bblock(b)};
    }

    /** The direct blocks of itrunc. */
    method FreeDirect(ghost d0: Disk, i: int)
      requires Owned(D(), {}) && d0 == D() && i in inodes
      modifies this`used, this`inodes, this`owner, this`logged
      ensures Owned(D(), {}) && Emptied(d0, D(), i, INDIRECT) && inodes.Keys == old(inodes).Keys
      ensures forall j :: j in inodes ==> inodes[j].size == d0.inodes[j].size && inodes[j].kind == d0.inodes[j].kind
      ensures Freed(d0.owner.Keys, old(logged))
    {
      hide Owned, Emptied, Freed;
      OwnedShape(d0);
      NotEmptied(d0, i);
      FreedNone();
      for k := 0 to NDIRECT
        invariant Owned(D(), {}) && Shaped(D()) && inodes.Keys == old(inodes).Keys && i in inodes && |used| == |d0.used|
        invariant Emptied(d0, D(), i, k) && Freed(d0.owner.Keys, old(logged))
        invariant forall j :: j in inodes ==> inodes[j].size == d0.inodes[j].size && inodes[j].kind == d0.inodes[j].kind
      {
        ghost var d := D();
        if inodes[i].addrs[k] != 0 {
          ClearAddrOwned(d, i, k);
          EmptiedMore(d0, d, ClearAddr(d, i, k), i, k);
          MappedInside(d, {}, i, k);
          FreeOne(d0.owner.Keys, old(logged), inodes[i].addrs[k]);
          inodes := inodes[i := inodes[i].(addrs := inodes[i].addrs[k := 0])];
          assert D() == ClearAddr(d, i, k);
          OwnedShape(D());
        } else {
          EmptiedAlready(d0, d, i, k);
        }
      }
    }

    lemma NotEmptied(d0: Disk, i: int)
      requires Shaped(d0) && i in d0.inodes
      ensures Emptied(d0, d0, i, 0)
    {
    }

    lemma EmptiedAlready(d0: Disk, d: Disk, i: int, k: int)
      requires Shaped(d0) && Shaped(d) && i in d0.inodes && 0 <= k < SLOTS && Emptied(d0, d, i, k) && At(d, i, k) == 0
      ensures Emptied(d0, d, i, k + 1)
    {
    }

    lemma EmptiedMore(d0: Disk, d: Disk, d': Disk, i: int, k: int)
      requires Shaped(d0) && Shaped(d) && Shaped(d') && i in d0.inodes && 0 <= k < SLOTS && Emptied(d0, d, i, k)
      requires d'.inodes.Keys == d.inodes.Keys && At(d', i, k) == 0
      requires forall i', k' ::
                 i' in d.inodes && 0 <= k' < SLOTS && (i' != i || k' != k) ==> At(d', i', k') == At(d, i', k')
      ensures Emptied(d0, d', i, k + 1)
    {
    }

    /** The indirect block of itrunc and the blocks it lists.  dv is the disk with the entries of freed
        blocks cleared; the source leaves them in the indirect block, which it frees last. */
    method FreeIndirect(ghost d0: Disk, i: int, ghost all: set<int>, ghost base: set<int>)
      requires Owned(d0, {}) && Owned(D(), {}) && i in d0.inodes && Emptied(d0, D(), i, INDIRECT) && i in inodes
      requires inodes[i].addrs[INDIRECT] != 0 && Freed(all, base)
      modifies this`used, this`inodes, this`owner, this`logged
      ensures Owned(D(), {}) && Emptied(d0, D(), i, SLOTS) && inodes.Keys == old(inodes).Keys
      ensures forall j :: j in inodes ==>
                inodes[j].size == old(inodes)[j].size && inodes[j].kind == old(inodes)[j].kind
      ensures Freed(all, base)
    {
      hide Owned, Emptied, TailEmptied, Freed;
      ghost var d1 := D();
      OwnedShape(d1);
      OwnedShape(d0);
      var ind := inodes[i].addrs[INDIRECT];
      ghost var dv := d1;
      TailStart(d1, i);
      for j := 0 to NINDIRECT
        invariant Owned(dv, {}) && Shaped(dv) && TailEmptied(d1, dv, i, j) && inodes == old(inodes)
        invariant 0 <= ind < |dv.data| && Freed(all, base)
        invariant D() == SetData(dv, ind, data[ind])
      {
        var b := Get32(data[ind], j);
        assert b == At(d1, i, INDIRECT + 1 + j);
        if b != 0 {
          TailStep(d1, dv, i, j);
          MappedInside(dv, {}, i, INDIRECT + 1 + j);
          FreeOne(all, base, b);
          dv := ClearEntry(dv, i, j);
          OwnedShape(dv);
        } else {
          TailSkip(d1, dv, i, j);
        }
      }
      TailEnd(d0, d1, dv, i, data[ind]);
      MappedInside(dv, {}, i, INDIRECT);
      FreeOne(all, base, ind);
      inodes := inodes[i := inodes[i].(addrs := inodes[i].addrs[INDIRECT := 0])];
      assert D() == SetData(ClearAddr(dv, i, INDIRECT), ind, data[ind]);
    }

    /** Discard the contents of inode i: every block it owns becomes free, no other bit changes, and the
        other files are untouched. */
    method Itrunc(i: int)
      requires Valid() && i in inodes
      modifies this`used, this`inodes, this`owner, this`logged
      ensures Valid() && inodes.Keys == old(inodes).Keys && |used| == |old(used)|
      ensures logged == old(logged) + Bits(bmapStart, OwnedBy(old(D()), i)) + {Iblock(i)}
      ensures Contents(D(), i) == [] && forall k :: 0 <= k < SLOTS ==> At(D(), i, k) == 0
      ensures forall b ::
                0 <= b < |used| ==> (used[b] <==> old(used)[b] && !(b in old(owner) && old(owner)[b].inum == i))
      ensures forall j :: j in inodes && j != i ==> Contents(D(), j) == Contents(old(D()), j)
      ensures forall j :: j in inodes ==> inodes[j].kind == old(inodes)[j].kind
    {
      hide Owned, Emptied, FilesOk, At, Contents, Freed;
      ghost var d0 := D();
      OwnedShape(d0);
      FreeDirect(d0, i);
      OwnedShape(D());
      if inodes[i].addrs[INDIRECT] != 0 {
        FreeIndirect(d0, i, d0.owner.Keys, old(logged));
      } else {
        NoIndirect(d0, D(), i);
      }
      ghost var d := D();
      OwnedShape(d);
      Truncated(d0, d, i);
      FreedAll(d0, d, i, old(logged));
      inodes := inodes[i := inodes[i].(size := 0)];
      logged := logged + {Iblock(i)};
      assert D() == SetSize(d, i, 0);
    }

    /** The blocks of inode i. */
    ghost function OwnedBy(d: Disk, i: int): set<int> {
      set b | b in d.owner && d.owner[b].inum == i
    }

    lemma FreedAll(d0: Disk, d: Disk, i: int, base: set<int>)
      requires Owned(d0, {}) && Owned(d, {}) && |d.used| == |d0.used| && d.start == d0.start && d.owner == owner
      requires forall b ::
                 0 <= b < |d.used| ==> (d.used[b] <==> d0.used[b] && !(b in d0.owner && d0.owner[b].inum == i))
      requires Freed(d0.owner.Keys, base)
      ensures logged == base + Bits(bmapStart, OwnedBy(d0, i))
    {
      forall b | b in d0.owner ensures b in owner <==> d0.owner[b].inum != i {
        assert d0.used[b];
      }
      assert d0.owner.Keys - owner.Keys == OwnedBy(d0, i);
    }

    lemma NoIndirect(d0: Disk, d: Disk, i: int)
      requires Shaped(d0) && Shaped(d) && i in d0.inodes && i in d.inodes && Emptied(d0, d, i, INDIRECT)
      requires d.inodes[i].addrs[INDIRECT] == 0
      ensures Emptied(d0, d, i, SLOTS)
    {
      assert At(d, i, INDIRECT) == 0;
      forall k | INDIRECT < k < SLOTS
        ensures At(d, i, k) == 0
      {
      }
    }

    lemma Truncated(d0: Disk, d: Disk, i: int)
      requires Owned(d0, {}) && FilesOk(d0) && Owned(d, {}) && i in d0.inodes && i in d.inodes
               && d.inodes.Keys == d0.inodes.Keys
      requires Shaped(d) && Shaped(d0) && Emptied(d0, d, i, SLOTS)
      requires d.data == d0.data && d.start == d0.start && forall j :: j in d.inodes ==>
                 d.inodes[j].size == d0.inodes[j].size
      ensures Owned(SetSize(d, i, 0), {}) && FilesOk(SetSize(d, i, 0)) && |d.used| == |d0.used|
      ensures Contents(SetSize(d, i, 0), i) == [] && forall k :: 0 <= k < SLOTS ==> At(SetSize(d, i, 0), i, k) == 0
      ensures forall b :: 0 <= b < |d.used| ==> (d.used[b] <==> d0.used[b] && !(b in d0.owner && d0.owner[b].inum == i))
      ensures forall j :: j in d0.inodes && j != i ==> Contents(SetSize(d, i, 0), j) == Contents(d0, j)
    {
      var d' := SetSize(d, i, 0);
      SetSizeOwned(d, i, 0);
      assert Emptied(d0, d', i, SLOTS);
      forall j | j in d0.inodes && j != i
        ensures FileOk(d', j) && Contents(d', j) == Contents(d0, j)
      {
        TruncatedOther(d0, d', i, j);
      }
      forall b | 0 <= b < |d.used|
        ensures d.used[b] <==> d0.used[b] && !(b in d0.owner && d0.owner[b].inum == i)
      {
        TruncatedBits(d0, d, i, b);
      }
    }

    /** iput of a reference to inode i: when it is the last one and nothing links to the inode, the contents
        and the inode are freed. */
    method Iput(i: int, ref: int, nlink: int)
      requires Valid() && i in inodes && ref >= 1
      modifies this`used, this`inodes, this`owner, this`logged
      ensures Valid() && inodes.Keys == old(inodes).Keys
      ensures ref != 1 || nlink != 0 ==> D() == old(D()) && logged == old(logged)
      ensures ref == 1 && nlink == 0 ==> logged == old(logged) + Bits(bmapStart, OwnedBy(old(D()), i)) + {Iblock(i)}
      ensures |logged| <= |old(logged)| + BitCount(|used|) + 1
      ensures ref == 1 && nlink == 0 ==>
                && inodes[i].kind == 0 && Contents(D(), i) == [] && |used| == |old(used)|
                && (forall b :: 0 <= b < |used| ==>
                      (used[b] <==> old(used)[b] && !(b in old(owner) && old(owner)[b].inum == i)))
      ensures forall j :: j in inodes && j != i ==>
                Contents(D(), j) == Contents(old(D()), j) && inodes[j].kind == old(inodes)[j].kind
    {
      hide Owned, FilesOk, At, Contents, Shaped;
      BitCountNat();
      if ref == 1 && nlink == 0 {
        TruncLogCard(D(), i, logged);
        Itrunc(i);
        ghost var d := D();
        inodes := inodes[i := inodes[i].(kind := 0)];
        logged := logged + {Iblock(i)};
        KindIrrelevant(d, i);
        assert D() == SetKind(d, i);
      }
    }

    lemma BitCountNat()
      ensures BitCount(|used|) >= 0
    {
    }

    /** Truncating logs at most all bitmap blocks and the inode's block. */
    lemma TruncLogCard(d: Disk, i: int, base: set<int>)
      requires Owned(d, {})
      ensures |base + Bits(bmapStart, OwnedBy(d, i)) + {Iblock(i)}| <= |base| + BitCount(|d.used|) + 1
    {
      BitsInside(bmapStart, OwnedBy(d, i), |d.used|);
      CardUnion(base, Bits(bmapStart, OwnedBy(d, i)));
      CardUnion(base + Bits(bmapStart, OwnedBy(d, i)), {Iblock(i)});
    }

    ghost function SetKind(d: Disk, i: int): Disk
      requires i in d.inodes
    {
      Disk(d.start, d.used, d.data, d.inodes[i := Inode(0, d.inodes[i].size, d.inodes[i].addrs)], d.owner)
    }

    lemma KindIrrelevant(d: Disk, i: int)
      requires Owned(d, {}) && FilesOk(d) && i in d.inodes
      ensures Shaped(d) && Owned(SetKind(d, i), {}) && Shaped(SetKind(d, i)) && FilesOk(SetKind(d, i))
      ensures forall j :: j in d.inodes ==>
                FileOk(d, j) && FileOk(SetKind(d, i), j) && Contents(SetKind(d, i), j) == Contents(d, j)
    {
      var d' := SetKind(d, i);
      forall j, k | j in d.inodes && 0 <= k < SLOTS
        ensures At(d', j, k) == At(d, j, k)
      {
        AtFrame(d, d', j, k);
      }
      forall j | j in d.inodes
        ensures FileOk(d', j) && Contents(d', j) == Contents(d, j)
      {
        SlotsSame(d, d', j);
      }
    }

    /** A file whose slots and blocks are the same has the same contents. */
    lemma SlotsSame(d: Disk, d': Disk, j: int)
      requires Shaped(d) && Shaped(d') && j in d.inodes && j in d'.inodes && FileOk(d, j) && d'.data == d.data
      requires d'.inodes[j].size == d.inodes[j].size
      requires forall k :: 0 <= k < SLOTS ==> At(d', j, k) == At(d, j, k)
      ensures FileOk(d', j) && Contents(d', j) == Contents(d, j)
    {
      hide At;
      forall x | 0 <= x < d.inodes[j].size ensures ByteAt(d', j, x) == ByteAt(d, j, x) {
        assert At(d', j, FileSlot(x / BSIZE)) == At(d, j, FileSlot(x / BSIZE));
      }
    }

    // ----- chunked writes

    /** filewrite's bytes per operation: the inode, the indirect block and two blocks of slop are set aside, and
        each block may need a bitmap block besides itself. */
    function MaxChunk(): int { (maxOp - 1 - 1 - 2) / 2 * BSIZE }

    /** Blocks of a file that n bytes at off touch. */
    function Spans(off: int, n: int): int {
      (off % BSIZE + n + BSIZE - 1) / BSIZE
    }

    /** Room in the log that a write of n > 0 bytes at off may need on a disk with nbm bitmap blocks: the blocks
        touched, the inode block, the indirect block, and a bitmap block for each block that can be new. */
    function LogNeed(off: int, n: int, nbm: int): int {
      var news := Spans(off, n) + 1 - if off % BSIZE != 0 then 1 else 0;
      Spans(off, n) + 2 + if news < nbm then news else nbm
    }

    /** A write that starts inside a block starts in one that is there. */
    ghost predicate NoHole(d: Disk, i: int, off: int)
      requires Shaped(d) && i in d.inodes
    {
      0 <= off < MAXFILE * BSIZE && off % BSIZE != 0 ==> At(d, i, FileSlot(off / BSIZE)) != 0
    }

    /** The slots a write fills are no more than the blocks it touches and the indirect block. */
    lemma NeededCard(d0: Disk, i: int, off: int, n: int, avail: int)
      requires Shaped(d0) && i in d0.inodes && 0 <= off && 0 < n && off + n <= MAXFILE * BSIZE && 0 <= avail
               && NoHole(d0, i, off)
      ensures |Needed(d0, i, off, n, avail)| <= Spans(off, n) + 1 - if off % BSIZE != 0 then 1 else 0
    {
      hide Wanted, Spans, Reached, NoHole;
      var lo := off / BSIZE + if off % BSIZE != 0 then 1 else 0;
      var hi := Reached(off, n, avail);
      var W := Needed(d0, i, off, n, avail);
      SpansReach(off, n, avail);
      var end := if lo <= hi then hi else lo;
      NeededInside(d0, i, off, n, avail, lo, hi);
      InjectiveBlocks(W - {INDIRECT}, lo, end);
      CardUnion(W - {INDIRECT}, {INDIRECT});
      CardSub(W, W - {INDIRECT} + {INDIRECT});
    }

    lemma NeededInside(d0: Disk, i: int, off: int, n: int, avail: int, lo: int, hi: int)
      requires Shaped(d0) && i in d0.inodes && 0 <= off && 0 < n && off + n <= MAXFILE * BSIZE && 0 <= avail
               && NoHole(d0, i, off)
      requires lo == off / BSIZE + (if off % BSIZE != 0 then 1 else 0) && hi == Reached(off, n, avail)
      ensures forall k :: k in Needed(d0, i, off, n, avail) && k != INDIRECT ==> lo <= BlockOf(k) < hi
    {
      hide Reached;
    }

    lemma SpansReach(off: int, n: int, avail: int)
      requires 0 <= off && 0 < n && 0 <= avail
      ensures Reached(off, n, avail) <= off / BSIZE + Spans(off, n) && Logged(off, n, avail) <= Reached(off, n, avail)
      ensures 1 <= Spans(off, n)
    {
    }

    /** Data slots of blocks lo..hi - 1: at most that many. */
    lemma InjectiveBlocks(W: set<int>, lo: int, hi: int)
      requires lo <= hi && forall k :: k in W ==> k != INDIRECT && lo <= BlockOf(k) < hi
      ensures |W| <= hi - lo
    {
      var f := map k | k in W :: BlockOf(k);
      InjectiveCard(W, f);
      var img := set k | k in W :: f[k];
      forall q | q in img ensures q in Range(lo, hi) {
        assert Within(q, lo, hi);
      }
      CardSub(img, Range(lo, hi));
      RangeCard(lo, hi);
    }

    /** What a write logs is among the blocks it reaches, the indirect block, bitmap blocks and the inode's. */
    lemma WriteLogInside(d0: Disk, d: Disk, i: int, off: int, n: int, avail: int)
      requires Owned(d0, {}) && Owned(d, {}) && i in d0.inodes && 0 <= off && 0 < n && off + n <= MAXFILE * BSIZE
               && 0 <= avail
      requires Fills(d0, d, i, Needed(d0, i, off, n, avail))
      ensures Reached(off, n, avail) <= MAXFILE
      ensures var W := Needed(d0, i, off, n, avail);
              WriteLog(d, i, off, n, avail, W) <=
                Data(d, i, off / BSIZE, Reached(off, n, avail)) + {At(d, i, INDIRECT)}
                  + Bits(bmapStart, News(d, i, W)) + {Iblock(i)}
    {
      var W, lo, hi := Needed(d0, i, off, n, avail), off / BSIZE, Reached(off, n, avail);
      ReachedInside(off, n, avail);
      forall b | b in News(d, i, W) ensures b in Data(d, i, lo, hi) + {At(d, i, INDIRECT)} {
        var k :| k in W && 0 <= k < SLOTS && b == At(d, i, k);
        if k != INDIRECT {
          assert FileSlot(BlockOf(k)) == k && lo <= BlockOf(k) < hi;
        }
      }
      forall b | b in Data(d, i, lo, Logged(off, n, avail)) ensures b in Data(d, i, lo, hi) {
        var bn :| lo <= bn < Logged(off, n, avail) && b == At(d, i, FileSlot(bn));
      }
      hide Owned, Fills, News, Bits, Data, At, Wanted;
    }

    lemma {:induction false} DataCard(d: Disk, i: int, lo: int, hi: int)
      requires Shaped(d) && i in d.inodes && 0 <= lo <= hi <= MAXFILE
      ensures |Data(d, i, lo, hi)| <= hi - lo
      decreases hi - lo
    {
      if lo < hi {
        DataCard(d, i, lo, hi - 1);
        DataMore(d, i, lo, hi - 1);
        CardUnion(Data(d, i, lo, hi - 1), {At(d, i, FileSlot(hi - 1))});
      } else {
        assert Data(d, i, lo, hi) == {};
      }
    }

    /** How many blocks a write logs, for a file without a hole where the write starts. */
    lemma WriteLogCard(d0: Disk, d: Disk, i: int, off: int, n: int, avail: int)
      requires Owned(d0, {}) && Owned(d, {}) && i in d0.inodes && 0 <= off && 0 < n && off + n <= MAXFILE * BSIZE
               && 0 <= avail
      requires Fills(d0, d, i, Needed(d0, i, off, n, avail)) && NoHole(d0, i, off)
      ensures |WriteLog(d, i, off, n, avail, Needed(d0, i, off, n, avail))| <= LogNeed(off, n, BitCount(|d.used|))
    {
      hide Owned, Fills, Needed, WriteLog, Data, At, Bits, News, Reached, Spans, NoHole, Logged, BitCount;
      OwnedShape(d);
      OwnedShape(d0);
      var W := Needed(d0, i, off, n, avail);
      FillsIn(d0, d, i, W);
      NewsBits(d0, d, i, W);
      NeededCard(d0, i, off, n, avail);
      WriteLogInside(d0, d, i, off, n, avail);
      ReachedInside(off, n, avail);
      SpansReach(off, n, avail);
      DataCard(d, i, off / BSIZE, Reached(off, n, avail));
      var a, b, c, e := Data(d, i, off / BSIZE, Reached(off, n, avail)), {At(d, i, INDIRECT)},
            Bits(bmapStart, News(d, i, W)), {Iblock(i)};
      CardUnion(a, b);
      CardUnion(a + b, c);
      CardUnion(a + b + c, e);
      CardSub(WriteLog(d, i, off, n, avail, W), a + b + c + e);
    }

    lemma FillsIn(d0: Disk, d: Disk, i: int, W: set<int>)
      requires Shaped(d0) && Shaped(d) && Fills(d0, d, i, W)
      ensures i in d.inodes
    {
    }

    lemma NewsBits(d0: Disk, d: Disk, i: int, W: set<int>)
      requires Owned(d0, {}) && Owned(d, {}) && Fills(d0, d, i, W)
      ensures |Bits(bmapStart, News(d, i, W))| <= |W| && |Bits(bmapStart, News(d, i, W))| <= BitCount(|d.used|)
    {
      NewsWereFree(d0, d, i, W);
      BitsCard(bmapStart, News(d, i, W));
      BitsInside(bmapStart, News(d, i, W), |d.used|);
    }

    /** A chunk of filewrite never needs more than the maxOp log entries reserved for it; on a disk with a single
        bitmap block it needs at most three more than the blocks it touches. */
    lemma ChunkFitsOperation(off: int, n: int, nbm: int)
      requires 0 <= off && 0 < n <= MaxChunk() && 1 <= nbm
      ensures LogNeed(off, n, nbm) <= maxOp && LogNeed(off, n, 1) == Spans(off, n) + 3
    {
    }

    lemma OverlayMore(s: seq<int>, off: int, a: seq<int>, b: seq<int>)
      requires 0 <= off <= |s|
      ensures off + |a| <= |Overlay(s, off, a)|
      ensures Overlay(Overlay(s, off, a), off + |a|, b) == Overlay(s, off, a + b)
    {
    }

    /** The state filewrite has reached: done of src's bytes written at off. */
    ghost predicate FileWriting(d0: Disk, d: Disk, i: int, off: int, src: seq<int>, done: int) {
      && Owned(d, {}) && FilesOk(d) && Owned(d0, {}) && FilesOk(d0) && i in d0.inodes && d.inodes.Keys == d0.inodes.Keys
      && 0 <= off <= d0.inodes[i].size && 0 <= done <= |src| && off + done <= MAXFILE * BSIZE
      && Contents(d, i) == Overlay(Contents(d0, i), off, src[..done])
      && (forall j :: j in d0.inodes && j != i ==> Contents(d, j) == Contents(d0, j))
      && (forall j :: j in d0.inodes ==> d.inodes[j].kind == d0.inodes[j].kind)
    }

    /** One operation of filewrite: begin_op, a chunk of at most MaxChunk() bytes, end_op.  It never logs more
        than the maxOp blocks reserved for it, however much of the source can be read, provided that the file
        has no hole where the chunk starts. */
    method WriteChunk(i: int, off: int, src: seq<int>, avail: int) returns (ok: bool, r: int)
      requires Owned(D(), {}) && i in inodes && 0 <= off < UINT && 0 < |src| <= MaxChunk() && |src| < UINT && 0 <= avail
      requires forall k :: 0 <= k < |src| ==> 0 <= src[k] < 256
      modifies this`used, this`data, this`inodes, this`owner, this`logged
      ensures Owned(D(), {}) && inodes.Keys == old(inodes).Keys
      ensures r == -1 <==> off > old(inodes)[i].size || off + |src| > MAXFILE * BSIZE
      ensures r == -1 ==> ok && D() == old(D()) && logged == {}
      ensures r != -1 ==>
                && r == |src|
                && (ok <==> |Needed(old(D()), i, off, |src|, avail)| <= |FreeBlocks(old(D()))|)
                && (ok ==> WriteLogged(old(D()), i, off, |src|, avail, {}))
                && (ok && old(FilesOk(D())) ==> WriteDone(old(D()), i, off, src, avail))
      ensures ok && old(NoHole(D(), i, off)) ==> |logged| <= maxOp
    {
      hide Owned, FilesOk, WriteDone, Needed, FreeBlocks, Shaped, NoHole;
      ghost var d0 := D();
      OwnedShape(d0);
      logged := {};
      ok, r := Writei(i, off, src, avail);
      if ok && NoHole(d0, i, off) && r != -1 {
        ChunkLogs(d0, i, off, |src|, avail);
      }
    }

    lemma ChunkLogs(d0: Disk, i: int, off: int, n: int, avail: int)
      requires Owned(d0, {}) && i in d0.inodes && 0 <= off && 0 < n <= MaxChunk() && off + n <= MAXFILE * BSIZE
               && 0 <= avail
      requires WriteLogged(d0, i, off, n, avail, {}) && NoHole(d0, i, off)
      ensures |logged| <= maxOp
    {
      hide Owned, Fills, Needed, WriteLog, LogNeed, MaxChunk, NoHole;
      OwnedShape(D());
      OwnedShape(d0);
      FillsIn(d0, D(), i, Needed(d0, i, off, n, avail));
      WriteLogCard(d0, D(), i, off, n, avail);
      ChunkFitsOperation(off, n, BitCount(|used|));
      assert {} + WriteLog(D(), i, off, n, avail, Needed(d0, i, off, n, avail)) ==
               WriteLog(D(), i, off, n, avail, Needed(d0, i, off, n, avail));
    }

    lemma ChunkAdds(d0: Disk, d: Disk, i: int, off: int, src: seq<int>, done: int, n1: int)
      requires FileWriting(d0, d, i, off, src, done) && 0 < n1 && done + n1 <= |src|
      ensures Owned(d0, {}) && FilesOk(d0) && Owned(d, {}) && FilesOk(d) && d.inodes.Keys == d0.inodes.Keys
      ensures off + done <= d.inodes[i].size == |Contents(d, i)|
      ensures forall j :: j in d0.inodes && j != i ==> Contents(d, j) == Contents(d0, j)
      ensures NewSize(d.inodes[i].size, off + done, n1, n1) ==
                |Overlay(Contents(d, i), off + done, src[done..done + n1])|
      ensures Overlay(Contents(d, i), off + done, src[done..done + n1]) ==
                Overlay(Contents(d0, i), off, src[..done + n1])
    {
      OverlayMore(Contents(d0, i), off, src[..done], src[done..done + n1]);
      assert src[..done] + src[done..done + n1] == src[..done + n1];
    }

    /** How many of n bytes filewrite gets to write at off: all, or as many whole chunks as the largest file holds. */
    function Writable(off: int, n: int): int
      requires MaxChunk() > 0
    {
      if off + n <= MAXFILE * BSIZE then n else (MAXFILE * BSIZE - off) / MaxChunk() * MaxChunk()
    }

    /** The block after the last one of k bytes at off. */
    function Covered(off: int, k: int): int { if k == 0 then off / BSIZE else Reached(off, k, k) }

    /** The slots of the blocks of k bytes at off, and no others, have been given blocks. */
    ghost predicate Filled(d0: Disk, d: Disk, i: int, off: int, k: int) {
      && Shaped(d0) && Shaped(d) && i in d0.inodes
      && Fills(d0, d, i, Wanted(d0, i, off / BSIZE, Covered(off, k)))
    }

    lemma TimesGrows(a: int, b: int, m: int)
      requires a <= b && 0 < m
      ensures a * m <= b * m
    {
    }

    lemma WholeChunks(M: int, m: int, c: int)
      requires 0 < m && 0 <= c && c * m <= M
      ensures c * m <= M / m * m && (M < (c + 1) * m ==> M / m * m == c * m)
    {
      var q := M / m;
      assert q * m <= M < (q + 1) * m;
      if q < c {
        TimesGrows(q + 1, c, m);
      } else {
        TimesGrows(c, q, m);
      }
      if q > c {
        TimesGrows(c + 1, q, m);
      }
    }

    /** filewrite on an inode whose source can be read, off being the offset kept in the open file and off'
        the offset it leaves there.  It writes the first `done` bytes of src: all, or as many whole chunks as the
        largest file holds.  ok is false where the source panics because no block is free: exactly when the
        blocks that those bytes need are more than the disk has left. */
    method Filewrite(i: int, off: int, src: seq<int>) returns (ok: bool, off': int, r: int, ghost done: int)
      requires Valid() && i in inodes && 0 <= off && off + |src| < UINT && MaxChunk() > 0
      requires forall k :: 0 <= k < |src| ==> 0 <= src[k] < 256
      modifies this`used, this`data, this`inodes, this`owner, this`logged
      ensures ok ==> Valid() && off' == off + done && r == if done == |src| then |src| else -1
      ensures off > old(inodes)[i].size ==> ok && done == 0 && D() == old(D())
      ensures off <= old(inodes)[i].size ==>
                && (ok <==> |Wanted(old(D()), i, off / BSIZE, Covered(off, Writable(off, |src|)))|
                              <= |FreeBlocks(old(D()))|)
                && (ok ==> FileWriting(old(D()), D(), i, off, src, done) && done == Writable(off, |src|))
    {
      hide FileWriting, WriteDone, Owned, FilesOk, Progress, Shaped, FreeBlocks, Wanted, Covered, Writable, Filled;
      ghost var d0 := D();
      OwnedShape(d0);
      var k := 0;
      ok := true;
      off' := off;
      r := 0;
      done := 0;
      ghost var c := 0;
      WritingNothing(d0, i, off, src);
      while k < |src|
        invariant 0 <= k <= |src| && done == k && ok && off' == off + k && i in d0.inodes
                  && Progress(d0, D(), i, off, src, k)
        invariant 0 <= c && (k < |src| ==> k == c * MaxChunk())
        invariant k == |src| && off <= d0.inodes[i].size ==> off + |src| <= MAXFILE * BSIZE
        decreases |src| - k
      {
        var n1 := if |src| - k > MaxChunk() then MaxChunk() else |src| - k;
        ghost var d := D();
        ok, r := ChunkTurn(d0, i, off, src, k, n1);
        ProgressOk(d0, d, i, off, src, k);
        if off <= d0.inodes[i].size {
          WritingInside(d0, d, i, off, src, k);
          ChunkPlace(off, |src|, k, n1, c);
        }
        if !ok {
          CoveredGrows(d0, i, off, k + n1, Writable(off, |src|));
          return;
        }
        if r < 0 {
          ProgressOk(d0, D(), i, off, src, k);
          EnoughFor(d0, D(), i, off, src, k);
          return;
        }
        off' := off' + r;
        k := k + r;
        done, c := k, c + 1;
      }
      r := |src|;
      ProgressOk(d0, D(), i, off, src, k);
      EnoughFor(d0, D(), i, off, src, k);
      assert off <= d0.inodes[i].size ==> Writable(off, |src|) == |src| by {
        WritableAll(off, |src|);
      }
    }

    lemma WritableAll(off: int, n: int)
      requires MaxChunk() > 0
      ensures off + n <= MAXFILE * BSIZE ==> Writable(off, n) == n
    {
    }

    /** A chunk that fits the largest file is among the writable bytes; before one that does not, all of these have been
        written. */
    lemma ChunkPlace(off: int, n: int, k: int, n1: int, c: int)
      requires off + k <= MAXFILE * BSIZE && MaxChunk() > 0 && 0 <= c && k == c * MaxChunk() < n
      requires n1 == if n - k > MaxChunk() then MaxChunk() else n - k
      ensures if off + k + n1 <= MAXFILE * BSIZE then k + n1 <= Writable(off, n) else Writable(off, n) == k
    {
      hide MaxChunk;
      var M, m := MAXFILE * BSIZE - off, MaxChunk();
      WholeChunks(M, m, c);
      OneChunkMore(c, m);
      if off + k + n1 <= MAXFILE * BSIZE && off + n > MAXFILE * BSIZE {
        WholeChunks(M, m, c + 1);
      }
    }

    lemma OneChunkMore(c: int, m: int)
      ensures (c + 1) * m == c * m + m
    {
    }

    lemma WritingInside(d0: Disk, d: Disk, i: int, off: int, src: seq<int>, k: int)
      requires FileWriting(d0, d, i, off, src, k)
      ensures off + k <= MAXFILE * BSIZE
    {
    }

    lemma CoveredGrows(d: Disk, i: int, off: int, k: int, n: int)
      requires Shaped(d) && i in d.inodes && 0 <= off && 0 <= k <= n
      ensures |Wanted(d, i, off / BSIZE, Covered(off, k))| <= |Wanted(d, i, off / BSIZE, Covered(off, n))|
    {
      hide Wanted, Shaped;
      WantedGrows(d, i, off / BSIZE, Covered(off, k), Covered(off, n));
    }

    lemma EnoughFor(d0: Disk, d: Disk, i: int, off: int, src: seq<int>, k: int)
      requires i in d0.inodes && Shaped(d0) && Owned(d0, {}) && Progress(d0, d, i, off, src, k)
      ensures off <= d0.inodes[i].size ==>
                |Wanted(d0, i, off / BSIZE, Covered(off, k))| <= |FreeBlocks(d0)|
    {
      hide FileWriting, Fills, Covered, Wanted, FreeBlocks, Owned, FilesOk;
      if off <= d0.inodes[i].size {
        EnoughBlocks(d0, d, i, Wanted(d0, i, off / BSIZE, Covered(off, k)));
      }
    }

    ghost predicate Progress(d0: Disk, d: Disk, i: int, off: int, src: seq<int>, k: int)
      requires i in d0.inodes
    {
      && Owned(d, {}) && FilesOk(d) && d.inodes.Keys == d0.inodes.Keys
      && (off > d0.inodes[i].size ==> k == 0 && d == d0)
      && (off <= d0.inodes[i].size ==> FileWriting(d0, d, i, off, src, k) && Filled(d0, d, i, off, k))
    }

    lemma ProgressOk(d0: Disk, d: Disk, i: int, off: int, src: seq<int>, k: int)
      requires i in d0.inodes && Progress(d0, d, i, off, src, k)
      ensures Owned(d, {}) && Shaped(d) && FilesOk(d) && i in d.inodes
      ensures off > d0.inodes[i].size ==> k == 0 && d == d0
      ensures off <= d0.inodes[i].size ==> FileWriting(d0, d, i, off, src, k) && Filled(d0, d, i, off, k)
    {
      hide FileWriting, FilesOk, Filled;
    }

    lemma WritingNothing(d0: Disk, i: int, off: int, src: seq<int>)
      requires Owned(d0, {}) && FilesOk(d0) && i in d0.inodes && 0 <= off
      ensures Progress(d0, d0, i, off, src, 0) && d0.inodes[i].size <= MAXFILE * BSIZE
    {
      SizeInside(d0, i);
      FillsNone(d0, i, 0);
      WantedNone(d0, i, off / BSIZE);
      if off <= d0.inodes[i].size {
        assert Overlay(Contents(d0, i), off, src[..0]) == Contents(d0, i);
      }
    }

    lemma CoveredParts(off: int, k: int, n1: int)
      requires 0 <= off && 0 <= k && 0 < n1
      ensures var lo2 := (off + k) / BSIZE;
              && off / BSIZE <= lo2 <= Covered(off, k) <= Covered(off, k + n1) && lo2 < Covered(off, k + n1)
              && Reached(off + k, n1, n1) == Covered(off, k + n1)
    {
    }

    /** After another chunk. */
    lemma ChunkFilled(d0: Disk, d: Disk, d': Disk, i: int, off: int, k: int, n1: int)
      requires Filled(d0, d, i, off, k) && 0 <= off && 0 <= k && 0 < n1 && Shaped(d') && i in d.inodes
      requires Fills(d, d', i, Needed(d, i, off + k, n1, n1))
      ensures Filled(d0, d', i, off, k + n1)
    {
      hide Fills, Wanted, Covered, Reached, Shaped;
      CoveredParts(off, k, n1);
      WantedJoin(d0, d, i, off / BSIZE, Covered(off, k), (off + k) / BSIZE, Covered(off, k + n1));
      FillsThen(d0, d, d', i, Wanted(d0, i, off / BSIZE, Covered(off, k)), Needed(d, i, off + k, n1, n1));
    }

    /** When there are too few blocks for another chunk, there were too few for all up to its end. */
    lemma ChunkShort(d0: Disk, d: Disk, i: int, off: int, k: int, n1: int)
      requires Owned(d0, {}) && Owned(d, {}) && Filled(d0, d, i, off, k) && 0 <= off && 0 <= k && 0 < n1
      requires i in d.inodes && |Needed(d, i, off + k, n1, n1)| > |FreeBlocks(d)|
      ensures |FreeBlocks(d0)| < |Wanted(d0, i, off / BSIZE, Covered(off, k + n1))|
    {
      hide Fills, Wanted, Covered, Reached, Shaped, Owned, FreeBlocks;
      OwnedShape(d0);
      OwnedShape(d);
      CoveredParts(off, k, n1);
      WantedJoin(d0, d, i, off / BSIZE, Covered(off, k), (off + k) / BSIZE, Covered(off, k + n1));
      FreeAfter(d0, d, i, Wanted(d0, i, off / BSIZE, Covered(off, k)));
    }

    /** The body of filewrite's loop. */
    method ChunkTurn(ghost d0: Disk, i: int, off: int, src: seq<int>, k: int, n1: int) returns (ok: bool, r: int)
      requires i in d0.inodes && Owned(d0, {}) && Progress(d0, D(), i, off, src, k)
      requires 0 <= off && 0 <= k && 0 < n1 <= MaxChunk() && k + n1 <= |src| && off + |src| < UINT
      requires forall j :: 0 <= j < |src| ==> 0 <= src[j] < 256
      modifies this`used, this`data, this`inodes, this`owner, this`logged
      ensures ok ==> r == -1 || r == n1
      ensures ok && r == -1 ==> Progress(d0, D(), i, off, src, k)
      ensures ok && r == n1 ==> Progress(d0, D(), i, off, src, k + n1)
      ensures ok ==> (r == n1 <==> off <= d0.inodes[i].size && off + k + n1 <= MAXFILE * BSIZE)
      ensures !ok ==>
                && off <= d0.inodes[i].size && off + k + n1 <= MAXFILE * BSIZE && Shaped(d0)
                && |FreeBlocks(d0)| < |Wanted(d0, i, off / BSIZE, Covered(off, k + n1))|
    {
      hide WriteDone, FileWriting, Owned, FilesOk, Progress, Needed, FreeBlocks, NoHole, MaxChunk, Shaped;
      hide Filled, Fills, Wanted, Covered, WriteLog;
      ghost var d := D();
      OwnedShape(d0);
      ProgressOk(d0, d, i, off, src, k);
      if off <= d0.inodes[i].size {
        ChunkSize(d0, d, i, off, src, k);
      }
      ok, r := WriteChunk(i, off + k, src[k..k + n1], n1);
      if !ok {
        ChunkShort(d0, d, i, off, k, n1);
      } else if r == n1 {
        OwnedShape(D());
        ChunkFilled(d0, d, D(), i, off, k, n1);
        ChunkWritten(d0, d, i, off, src, k, n1);
      }
    }

    lemma ChunkSize(d0: Disk, d: Disk, i: int, off: int, src: seq<int>, k: int)
      requires FileWriting(d0, d, i, off, src, k)
      ensures off + k <= d.inodes[i].size
    {
      hide Owned;
    }

    lemma SizeInside(d: Disk, i: int)
      requires Owned(d, {}) && FilesOk(d) && i in d.inodes
      ensures 0 <= d.inodes[i].size <= MAXFILE * BSIZE
    {
    }

    lemma ChunkWritten(d0: Disk, d: Disk, i: int, off: int, src: seq<int>, k: int, n1: int)
      requires FileWriting(d0, d, i, off, src, k) && Owned(d, {}) && FilesOk(d) && i in d.inodes
      requires 0 <= off && 0 <= k && 0 < n1 && k + n1 <= |src| && off + k <= d.inodes[i].size
               && off + k + n1 <= MAXFILE * BSIZE
      requires WriteDone(d, i, off + k, src[k..k + n1], n1) && Filled(d0, D(), i, off, k + n1)
      ensures i in d0.inodes && Progress(d0, D(), i, off, src, k + n1)
    {
      ChunkAdds(d0, d, i, off, src, k, n1);
      hide Owned, FilesOk, Contents, Overlay;
      var part := src[k..k + n1];
      assert Copied(part, n1) == part;
      var all := Overlay(Contents(d, i), off + k, part);
      assert all[..|all|] == all;
    }
  }
}
