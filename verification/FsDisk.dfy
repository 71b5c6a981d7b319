/**
 The block and inode structures of kernel/fs.c as values: the free bitmap, the contents of blocks, the
 inodes with their direct and indirect block numbers, and who owns each block.
 */
module FsDisk {

  const BSIZE: int := 1024
  const NDIRECT: int := 12
  const NINDIRECT: int := 256
  const MAXFILE: int := 268
  /** Bitmap bits per block. */
  const BPB: int := 8192
  const UINT: int := 0x1_0000_0000

  /** A block's bytes. */
  type Block = seq<int>

  predicate IsBlock(b: Block) {
    |b| == BSIZE && forall i :: 0 <= i < |b| ==> 0 <= b[i] < 256
  }

  function Zeros(): (b: Block)
    ensures IsBlock(b) && forall i :: 0 <= i < |b| ==> b[i] == 0
  {
    seq(BSIZE, i => 0)
  }

  /** The j-th entry of an indirect block, little endian. */
  function Get32(b: Block, j: int): (v: int)
    requires IsBlock(b) && 0 <= j < NINDIRECT
    ensures 0 <= v < UINT
  {
    b[4 * j] + 0x100 * b[4 * j + 1] + 0x1_0000 * b[4 * j + 2] + 0x100_0000 * b[4 * j + 3]
  }

  function Set32(b: Block, j: int, v: int): (r: Block)
    requires IsBlock(b) && 0 <= j < NINDIRECT && 0 <= v < UINT
    ensures IsBlock(r)
  {
    b[4 * j := v % 0x100][4 * j + 1 := v / 0x100 % 0x100][4 * j + 2 := v / 0x1_0000 % 0x100][4 * j
      + 3 := v / 0x100_0000]
  }

  lemma Get32Set32(b: Block, j: int, v: int, k: int)
    requires IsBlock(b) && 0 <= j < NINDIRECT && 0 <= v < UINT && 0 <= k < NINDIRECT
    ensures Get32(Set32(b, j, v), k) == if k == j then v else Get32(b, k)
  {
    Split32(v);
    var r := Set32(b, j, v);
    assert forall i :: 0 <= i < BSIZE && !(4 * j <= i < 4 * j + 4) ==> r[i] == b[i];
    if k == j {
      assert r[4 * j] == v % 0x100 && r[4 * j + 1] == v / 0x100 % 0x100;
      assert r[4 * j + 2] == v / 0x1_0000 % 0x100 && r[4 * j + 3] == v / 0x100_0000;
    }
  }

  lemma Split32(v: int)
    requires 0 <= v < UINT
    ensures v == v % 0x100 + 0x100 * (v / 0x100 % 0x100) + 0x1_0000 * (v / 0x1_0000 % 0x100)
              + 0x100_0000 * (v / 0x100_0000)
  {
  }

  /** An inode's on-disk part: type, size and block numbers; addrs[NDIRECT] is the indirect block. */
  datatype Inode = Inode(kind: int, size: int, addrs: seq<int>)

  /** Position k of an inode's block numbers: 0..11 direct, 12 the indirect block, 13 + j its entry j. */
  datatype Slot = Slot(inum: int, k: int)

  const INDIRECT: int := 12
  const SLOTS: int := 269

  /** start: the first data block.  owner is bookkeeping: which slot each data block belongs to. */
  datatype Disk = Disk(start: int, used: seq<bool>, data: seq<Block>, inodes: map<int, Inode>, owner: map<int, Slot>)

  ghost predicate Shaped(d: Disk) {
    && 0 < d.start <= |d.used| == |d.data| < UINT
    && (forall b :: 0 <= b < |d.data| ==> IsBlock(d.data[b]))
    && (forall i :: i in d.inodes ==> |d.inodes[i].addrs| == NDIRECT + 1)
    && (forall i, k :: i in d.inodes && 0 <= k <= NDIRECT ==> 0 <= d.inodes[i].addrs[k] < |d.data|)
  }

  /** The block number in a slot; 0 for none. */
  ghost function At(d: Disk, i: int, k: int): (b: int)
    requires Shaped(d) && i in d.inodes && 0 <= k < SLOTS
  {
    if k <= INDIRECT then d.inodes[i].addrs[k]
    else
      var ind := d.inodes[i].addrs[INDIRECT];
      if ind == 0 then 0 else Get32(d.data[ind], k - INDIRECT - 1)
  }

  /** Every block number in a slot is a data block marked used that knows this slot as its owner. */
  ghost predicate SlotsOwned(d: Disk)
    requires Shaped(d)
  {
    forall i, k :: i in d.inodes && 0 <= k < SLOTS && At(d, i, k) != 0 ==>
      At(d, i, k) in d.owner && d.owner[At(d, i, k)] == Slot(i, k)
  }

  ghost predicate OwnersRight(d: Disk)
    requires Shaped(d)
  {
    forall b :: b in d.owner ==>
      && d.start <= b < |d.used| && d.used[b]
      && d.owner[b].inum in d.inodes && 0 <= d.owner[b].k < SLOTS
      && At(d, d.owner[b].inum, d.owner[b].k) == b
  }

  /** Every used data block outside loose has an owner, and metadata blocks are used. */
  ghost predicate UsedOwned(d: Disk, loose: set<int>) {
    && (forall b :: b in loose ==> b !in d.owner)
    && (forall b :: 0 <= d.start <= b < |d.used| && d.used[b] ==> b in d.owner || b in loose)
    && (forall b :: 0 <= b < d.start && b < |d.used| ==> d.used[b])
  }

  /** Block ownership: block numbers in slots are pairwise distinct (owner is a function), each has its
      bit set, and every set data bit has an owner, except for blocks in loose. */
  ghost predicate Owned(d: Disk, loose: set<int>) {
    Shaped(d) && SlotsOwned(d) && OwnersRight(d) && UsedOwned(d, loose)
  }

  lemma SlotsDistinct(d: Disk, loose: set<int>, i: int, k: int, i': int, k': int)
    requires Owned(d, loose) && i in d.inodes && i' in d.inodes && 0 <= k < SLOTS && 0 <= k' < SLOTS
    requires At(d, i, k) == At(d, i', k') != 0
    ensures i == i' && k == k'
  {
  }

  // ----- changes to the disk

  /** balloc: b's bit is set and its contents are zeroed. */
  ghost function Take(d: Disk, b: int): Disk
    requires 0 <= b < |d.used| == |d.data|
  {
    Disk(d.start, d.used[b := true], d.data[b := Zeros()], d.inodes, d.owner)
  }

  /** Block b goes into slot k (direct, or the indirect block) of inode i. */
  ghost function SetAddr(d: Disk, i: int, k: int, b: int): Disk
    requires i in d.inodes && 0 <= k < |d.inodes[i].addrs|
  {
    d.(inodes := d.inodes[i := d.inodes[i].(addrs := d.inodes[i].addrs[k := b])], owner := d.owner[b := Slot(i, k)])
  }

  /** The blocks with entry j of block ind set to b. */
  ghost function Updated(data: seq<Block>, ind: int, j: int, b: int): seq<Block>
    requires 0 <= ind < |data| && IsBlock(data[ind]) && 0 <= j < NINDIRECT && 0 <= b < UINT
  {
    data[ind := Set32(data[ind], j, b)]
  }

  /** Block b goes into entry j of inode i's indirect block. */
  ghost function SetEntry(d: Disk, i: int, j: int, b: int): Disk
    requires Shaped(d) && i in d.inodes && 0 <= j < NINDIRECT && 0 <= b < UINT
  {
    Disk(d.start, d.used, Updated(d.data, d.inodes[i].addrs[INDIRECT], j, b), d.inodes,
         d.owner[b := Slot(i, INDIRECT + 1 + j)])
  }

  lemma AtFrame(d: Disk, d': Disk, i: int, k: int)
    requires Shaped(d) && Shaped(d') && i in d.inodes && i in d'.inodes && 0 <= k < SLOTS
    requires d'.inodes[i].addrs == d.inodes[i].addrs && |d'.data| == |d.data|
    requires var ind := d.inodes[i].addrs[INDIRECT]; ind != 0 ==> d'.data[ind] == d.data[ind]
    ensures At(d', i, k) == At(d, i, k)
  {
  }

  /** A block owned through no indirect slot is no inode's indirect block. */
  lemma NotIndirect(d: Disk, loose: set<int>, i: int, b: int)
    requires Owned(d, loose) && i in d.inodes && b != 0
    requires b in d.owner ==> d.owner[b].k != INDIRECT || d.owner[b].inum != i
    ensures d.inodes[i].addrs[INDIRECT] != b
  {
    assert At(d, i, INDIRECT) == d.inodes[i].addrs[INDIRECT];
  }

  lemma AtTake(d: Disk, b: int, i: int, k: int)
    requires Owned(d, {}) && d.start <= b < |d.used| && b !in d.owner && i in d.inodes && 0 <= k < SLOTS
    ensures Shaped(Take(d, b)) && At(Take(d, b), i, k) == At(d, i, k)
  {
    NotIndirect(d, {}, i, b);
  }

  lemma TakeOwned(d: Disk, b: int)
    requires Owned(d, {}) && d.start <= b < |d.used| && !d.used[b]
    ensures Owned(Take(d, b), {b})
  {
    var d' := Take(d, b);
    assert b !in d.owner;
    forall i, k | i in d.inodes && 0 <= k < SLOTS
      ensures At(d', i, k) == At(d, i, k)
    {
      AtTake(d, b, i, k);
    }
  }

  lemma AtSetAddr(d: Disk, i: int, k: int, b: int, i': int, k': int)
    requires Owned(d, {b}) && i in d.inodes && 0 <= k <= INDIRECT && At(d, i, k) == 0
    requires d.start <= b < |d.used| && d.data[b] == Zeros() && i' in d.inodes && 0 <= k' < SLOTS
    ensures Shaped(SetAddr(d, i, k, b))
    ensures At(SetAddr(d, i, k, b), i', k') == if i' == i && k' == k then b else At(d, i', k')
  {
  }

  lemma AtSetEntry(d: Disk, i: int, j: int, b: int, i': int, k': int)
    requires Owned(d, {b}) && i in d.inodes && 0 <= j < NINDIRECT && At(d, i, INDIRECT) != 0
    requires d.start <= b < |d.used| && i' in d.inodes && 0 <= k' < SLOTS
    ensures Shaped(SetEntry(d, i, j, b))
    ensures At(SetEntry(d, i, j, b), i', k') == if i' == i && k' == INDIRECT + 1 + j then b else At(d, i', k')
  {
    var ind := d.inodes[i].addrs[INDIRECT];
    if k' > INDIRECT {
      Get32Set32(d.data[ind], j, b, k' - INDIRECT - 1);
      if i' != i {
        NotIndirect(d, {b}, i', ind);
      }
    }
  }

  /** Giving a loose block to an empty slot restores ownership. */
  lemma AssignOwned(d: Disk, d': Disk, i: int, k: int, b: int)
    requires Owned(d, {b}) && Shaped(d') && d.start <= b < |d.used| && d.used[b]
    requires i in d.inodes && 0 <= k < SLOTS && At(d, i, k) == 0
    requires d'.start == d.start && d'.used == d.used && d'.inodes.Keys == d.inodes.Keys
    requires d'.owner == d.owner[b := Slot(i, k)]
    requires forall i', k' ::
               i' in d.inodes && 0 <= k' < SLOTS && (i' != i || k' != k) ==> At(d', i', k') == At(d, i', k')
    requires At(d', i, k) == b
    ensures Owned(d', {})
  {
  }

  /** Block b, in slot k (direct or indirect) of inode i, is freed and the slot cleared. */
  ghost function ClearAddr(d: Disk, i: int, k: int): Disk
    requires Shaped(d) && i in d.inodes && 0 <= k <= INDIRECT
  {
    var b := d.inodes[i].addrs[k];
    Disk(d.start, d.used[b := false], d.data,
         d.inodes[i := Inode(d.inodes[i].kind, d.inodes[i].size, d.inodes[i].addrs[k := 0])], d.owner - {b})
  }

  /** The block in entry j of inode i's indirect block is freed and the entry cleared. */
  ghost function ClearEntry(d: Disk, i: int, j: int): Disk
    requires Shaped(d) && i in d.inodes && 0 <= j < NINDIRECT && At(d, i, INDIRECT + 1 + j) < |d.used|
  {
    Disk(d.start, d.used[At(d, i, INDIRECT + 1 + j) := false],
         Updated(d.data, d.inodes[i].addrs[INDIRECT], j, 0), d.inodes, d.owner - {At(d, i, INDIRECT + 1 + j)})
  }

  /** Taking the block out of a slot and marking it free keeps ownership. */
  lemma UnassignOwned(d: Disk, d': Disk, i: int, k: int, b: int)
    requires Owned(d, {}) && Shaped(d') && i in d.inodes && 0 <= k < SLOTS && At(d, i, k) == b != 0
    requires b < |d.used| && d'.start == d.start && d'.used == d.used[b := false] && d'.inodes.Keys == d.inodes.Keys
    requires d'.owner == d.owner - {b}
    requires forall i', k' ::
               i' in d.inodes && 0 <= k' < SLOTS && (i' != i || k' != k) ==> At(d', i', k') == At(d, i', k')
    requires At(d', i, k) == 0
    ensures Owned(d', {})
  {
  }

  lemma AtClearAddr(d: Disk, i: int, k: int, i': int, k': int)
    requires Owned(d, {}) && i in d.inodes && 0 <= k <= INDIRECT && At(d, i, k) != 0
    requires k == INDIRECT ==> forall j :: INDIRECT < j < SLOTS ==> At(d, i, j) == 0
    requires i' in d.inodes && 0 <= k' < SLOTS
    ensures Shaped(ClearAddr(d, i, k))
    ensures At(ClearAddr(d, i, k), i', k') == if i' == i && k' == k then 0 else At(d, i', k')
  {
  }

  lemma ClearAddrOwned(d: Disk, i: int, k: int)
    requires Owned(d, {}) && i in d.inodes && 0 <= k <= INDIRECT && At(d, i, k) != 0
    requires k == INDIRECT ==> forall j :: INDIRECT < j < SLOTS ==> At(d, i, j) == 0
    ensures d.used[At(d, i, k)]
    ensures Owned(ClearAddr(d, i, k), {})
    ensures forall i', k' :: i' in d.inodes && 0 <= k' < SLOTS && (i' != i || k' != k) ==>
              At(ClearAddr(d, i, k), i', k') == At(d, i', k')
    ensures At(ClearAddr(d, i, k), i, k) == 0
  {
    var d' := ClearAddr(d, i, k);
    AtClearAddr(d, i, k, i, k);
    forall i', k' | i' in d.inodes && 0 <= k' < SLOTS && (i' != i || k' != k)
      ensures At(d', i', k') == At(d, i', k')
    {
      AtClearAddr(d, i, k, i', k');
    }
    UnassignOwned(d, d', i, k, At(d, i, k));
  }

  lemma AtClearEntry(d: Disk, i: int, j: int, i': int, k': int)
    requires Owned(d, {}) && i in d.inodes && 0 <= j < NINDIRECT && At(d, i, INDIRECT + 1 + j) != 0
    requires i' in d.inodes && 0 <= k' < SLOTS
    ensures At(d, i, INDIRECT + 1 + j) < |d.used| && Shaped(ClearEntry(d, i, j))
    ensures At(ClearEntry(d, i, j), i', k') == if i' == i && k' == INDIRECT + 1 + j then 0 else At(d, i', k')
  {
    var ind := d.inodes[i].addrs[INDIRECT];
    assert At(d, i, INDIRECT) == ind != 0;
    if k' > INDIRECT {
      Get32Set32(d.data[ind], j, 0, k' - INDIRECT - 1);
      if i' != i {
        NotIndirect(d, {}, i', ind);
      }
    }
  }

  lemma ClearEntryOwned(d: Disk, i: int, j: int)
    requires Owned(d, {}) && i in d.inodes && 0 <= j < NINDIRECT && At(d, i, INDIRECT + 1 + j) != 0
    ensures At(d, i, INDIRECT + 1 + j) < |d.used| && d.used[At(d, i, INDIRECT + 1 + j)]
    ensures Owned(ClearEntry(d, i, j), {})
    ensures forall i', k' :: i' in d.inodes && 0 <= k' < SLOTS && (i' != i || k' != INDIRECT + 1 + j) ==>
              At(ClearEntry(d, i, j), i', k') == At(d, i', k')
    ensures At(ClearEntry(d, i, j), i, INDIRECT + 1 + j) == 0
  {
    AtClearEntry(d, i, j, i, INDIRECT + 1 + j);
    var d' := ClearEntry(d, i, j);
    forall i', k' | i' in d.inodes && 0 <= k' < SLOTS && (i' != i || k' != INDIRECT + 1 + j)
      ensures At(d', i', k') == At(d, i', k')
    {
      AtClearEntry(d, i, j, i', k');
    }
    UnassignOwned(d, d', i, INDIRECT + 1 + j, At(d, i, INDIRECT + 1 + j));
  }

  /** New contents for block b. */
  ghost function SetData(d: Disk, b: int, blk: Block): Disk
    requires 0 <= b < |d.data|
  {
    Disk(d.start, d.used, d.data[b := blk], d.inodes, d.owner)
  }

  lemma SetDataOwned(d: Disk, b: int, blk: Block)
    requires Owned(d, {}) && b in d.owner && d.owner[b].k != INDIRECT && IsBlock(blk)
    ensures 0 <= b < |d.data| && Owned(SetData(d, b, blk), {})
    ensures forall i, k :: i in d.inodes && 0 <= k < SLOTS ==> At(SetData(d, b, blk), i, k) == At(d, i, k)
  {
    var d' := SetData(d, b, blk);
    forall i, k | i in d.inodes && 0 <= k < SLOTS
      ensures At(d', i, k) == At(d, i, k)
    {
      NotIndirect(d, {}, i, b);
    }
  }

  // ----- what files hold

  /** The slot of a file's n-th block. */
  function FileSlot(n: int): int {
    if n < NDIRECT then n else n + 1
  }

  /** Every data slot that held a block still holds it, with the same contents; sizes and kinds are the same. */
  ghost predicate SameFiles(d: Disk, d': Disk)
    requires Shaped(d) && Shaped(d')
  {
    && d'.inodes.Keys == d.inodes.Keys
    && (forall i :: i in d.inodes ==> d'.inodes[i].size == d.inodes[i].size && d'.inodes[i].kind == d.inodes[i].kind)
    && |d'.data| == |d.data|
    && (forall i, k :: i in d.inodes && 0 <= k < SLOTS && k != INDIRECT && 0 < At(d, i, k) < |d.data| ==>
          At(d', i, k) == At(d, i, k) && d'.data[At(d, i, k)] == d.data[At(d, i, k)])
  }

  lemma SameFilesTrans(d: Disk, d1: Disk, d2: Disk)
    requires Shaped(d) && Shaped(d1) && Shaped(d2) && SameFiles(d, d1) && SameFiles(d1, d2)
    ensures SameFiles(d, d2)
  {
  }

  /** balloc's block, put into an empty direct slot or as the indirect block. */
  lemma GiveAddr(d: Disk, i: int, k: int, b: int)
    requires Owned(d, {}) && i in d.inodes && 0 <= k <= INDIRECT && At(d, i, k) == 0
    requires d.start <= b < |d.used| && !d.used[b]
    ensures Owned(SetAddr(Take(d, b), i, k, b), {}) && SameFiles(d, SetAddr(Take(d, b), i, k, b))
    ensures At(SetAddr(Take(d, b), i, k, b), i, k) == b
    ensures forall k' :: 0 <= k' < SLOTS && k' != k ==> At(SetAddr(Take(d, b), i, k, b), i, k') == At(d, i, k')
  {
    var t := Take(d, b);
    TakeOwned(d, b);
    var d' := SetAddr(t, i, k, b);
    forall i', k' | i' in d.inodes && 0 <= k' < SLOTS
      ensures At(t, i', k') == At(d, i', k')
    {
      AtTake(d, b, i', k');
    }
    AtSetAddr(t, i, k, b, i, k);
    forall i', k' | i' in d.inodes && 0 <= k' < SLOTS && (i' != i || k' != k)
      ensures At(d', i', k') == At(t, i', k')
    {
      AtSetAddr(t, i, k, b, i', k');
    }
    AssignOwned(t, d', i, k, b);
  }

  /** balloc's block, put into an empty entry of the indirect block. */
  lemma GiveEntry(d: Disk, i: int, j: int, b: int)
    requires Owned(d, {}) && i in d.inodes && 0 <= j < NINDIRECT
    requires At(d, i, INDIRECT) != 0 && At(d, i, INDIRECT + 1 + j) == 0
    requires d.start <= b < |d.used| && !d.used[b]
    ensures Owned(SetEntry(Take(d, b), i, j, b), {}) && SameFiles(d, SetEntry(Take(d, b), i, j, b))
    ensures At(SetEntry(Take(d, b), i, j, b), i, INDIRECT + 1 + j) == b
    ensures forall k' :: 0 <= k' < SLOTS && k' != INDIRECT + 1 + j ==>
              At(SetEntry(Take(d, b), i, j, b), i, k') == At(d, i, k')
  {
    var t := Take(d, b);
    TakeOwned(d, b);
    forall i', k' | i' in d.inodes && 0 <= k' < SLOTS
      ensures At(t, i', k') == At(d, i', k')
    {
      AtTake(d, b, i', k');
    }
    AtSetEntry(t, i, j, b, i, INDIRECT + 1 + j);
    var d' := SetEntry(t, i, j, b);
    forall i', k' | i' in d.inodes && 0 <= k' < SLOTS && (i' != i || k' != INDIRECT + 1 + j)
      ensures At(d', i', k') == At(t, i', k')
    {
      AtSetEntry(t, i, j, b, i', k');
    }
    AssignOwned(t, d', i, INDIRECT + 1 + j, b);
  }

  /** A file has no holes below its size. */
  ghost predicate FileOk(d: Disk, i: int)
    requires Shaped(d) && i in d.inodes
  {
    && 0 <= d.inodes[i].size <= MAXFILE * BSIZE
    && (forall n :: 0 <= n < MAXFILE && n * BSIZE < d.inodes[i].size ==> At(d, i, FileSlot(n)) != 0)
  }

  ghost predicate FilesOk(d: Disk)
    requires Shaped(d)
  {
    forall i :: i in d.inodes ==> FileOk(d, i)
  }

  /** Byte x of file i; 0 where no block is mapped. */
  ghost function ByteAt(d: Disk, i: int, x: int): int
    requires Shaped(d) && i in d.inodes && 0 <= x < MAXFILE * BSIZE
  {
    var b := At(d, i, FileSlot(x / BSIZE));
    if 0 < b < |d.data| then d.data[b][x % BSIZE] else 0
  }

  /** What a file contains. */
  ghost function Contents(d: Disk, i: int): (s: seq<int>)
    requires Shaped(d) && i in d.inodes && FileOk(d, i)
    ensures |s| == d.inodes[i].size
    ensures forall x :: 0 <= x < |s| ==> s[x] == ByteAt(d, i, x)
  {
    seq(d.inodes[i].size, x requires 0 <= x < d.inodes[i].size => ByteAt(d, i, x))
  }

  /** Blocks that are mapped have numbers within the disk. */
  lemma MappedInside(d: Disk, loose: set<int>, i: int, k: int)
    requires Owned(d, loose) && i in d.inodes && 0 <= k < SLOTS && At(d, i, k) != 0
    ensures 0 < d.start <= At(d, i, k) < |d.data| && At(d, i, k) in d.owner && d.owner[At(d, i, k)] == Slot(i, k)
  {
  }

  lemma SameFilesByte(d: Disk, d': Disk, i: int, x: int)
    requires Owned(d, {}) && Shaped(d') && SameFiles(d, d') && i in d.inodes && 0 <= x < MAXFILE * BSIZE
    requires At(d, i, FileSlot(x / BSIZE)) != 0
    ensures At(d', i, FileSlot(x / BSIZE)) != 0 && ByteAt(d', i, x) == ByteAt(d, i, x)
  {
    MappedInside(d, {}, i, FileSlot(x / BSIZE));
  }

  // ----- overwriting part of a block

  /** blk with src written at position o. */
  function Overwrite(blk: Block, o: int, src: seq<int>): (r: Block)
    requires IsBlock(blk) && 0 <= o && o + |src| <= BSIZE && forall k :: 0 <= k < |src| ==> 0 <= src[k] < 256
    ensures IsBlock(r)
    ensures forall y {:trigger r[y]} :: 0 <= y < o ==> r[y] == blk[y]
    ensures forall y {:trigger r[y]} :: o <= y < o + |src| ==> r[y] == src[y - o]
    ensures forall y {:trigger r[y]} :: o + |src| <= y < BSIZE ==> r[y] == blk[y]
  {
    blk[..o] + src + blk[o + |src|..]
  }

  /** Writing src at byte off of file i, inside one block, changes those bytes and no others. */
  lemma OverwriteByte(d: Disk, i: int, off: int, src: seq<int>, i': int, x: int)
    requires Owned(d, {}) && i in d.inodes && i' in d.inodes
    requires 0 <= off < MAXFILE * BSIZE && off % BSIZE + |src| <= BSIZE && forall k :: 0 <= k < |src| ==>
               0 <= src[k] < 256
    requires 0 <= x < MAXFILE * BSIZE && At(d, i', FileSlot(x / BSIZE)) != 0 && At(d, i, FileSlot(off / BSIZE)) != 0
    ensures var b := At(d, i, FileSlot(off / BSIZE));
            && 0 <= b < |d.data| && IsBlock(d.data[b])
            && var d' := SetData(d, b, Overwrite(d.data[b], off % BSIZE, src));
               && Shaped(d') && At(d', i', FileSlot(x / BSIZE)) == At(d, i', FileSlot(x / BSIZE))
               && (i' == i && off <= x < off + |src| ==> ByteAt(d', i', x) == src[x - off])
               && (!(i' == i && off <= x < off + |src|) ==> ByteAt(d', i', x) == ByteAt(d, i', x))
  {
    var k, k' := FileSlot(off / BSIZE), FileSlot(x / BSIZE);
    var b := At(d, i, k);
    MappedInside(d, {}, i, k);
    MappedInside(d, {}, i', k');
    SetDataOwned(d, b, Overwrite(d.data[b], off % BSIZE, src));
    if At(d, i', k') == b {
      assert i' == i && k' == k;
      assert x / BSIZE == off / BSIZE;
      DivMod(x);
      DivMod(off);
    } else {
      assert i' == i ==> x / BSIZE != off / BSIZE;
      SameBlock(off, |src|, x);
    }
  }

  lemma DivMod(x: int)
    requires 0 <= x
    ensures x == BSIZE * (x / BSIZE) + x % BSIZE
  {
  }

  lemma SameBlock(off: int, n: int, x: int)
    requires 0 <= off && 0 <= x && 0 <= n && off % BSIZE + n <= BSIZE
    ensures off <= x < off + n ==> x / BSIZE == off / BSIZE
  {
  }

  // ----- writing a run of bytes

  ghost predicate Mapped(d: Disk, i: int, x: int)
    requires Shaped(d) && i in d.inodes && 0 <= x < MAXFILE * BSIZE
  {
    At(d, i, FileSlot(x / BSIZE)) != 0
  }

  /** Byte x of file j is one of the n bytes of file i from off on. */
  predicate Hit(i: int, off: int, n: int, j: int, x: int) { j == i && off <= x < off + n }

  /** From d0 to d, the bytes of file i from off on became src; every other mapped byte is the same. */
  ghost predicate Wrote(d0: Disk, d: Disk, i: int, off: int, src: seq<int>)
    requires Shaped(d0) && Shaped(d) && i in d0.inodes && 0 <= off
  {
    && d.inodes.Keys == d0.inodes.Keys
    && off + |src| <= MAXFILE * BSIZE
    && (forall j :: j in d0.inodes ==> d.inodes[j].size == d0.inodes[j].size && d.inodes[j].kind == d0.inodes[j].kind)
    && (forall j, x :: j in d0.inodes && 0 <= x < MAXFILE * BSIZE && Mapped(d0, j, x) && !Hit(i, off, |src|, j, x) ==>
          Mapped(d, j, x) && ByteAt(d, j, x) == ByteAt(d0, j, x))
    && (forall x :: off <= x < off + |src| ==> Mapped(d, i, x) && ByteAt(d, i, x) == src[x - off])
  }

  lemma WroteSame(d0: Disk, d: Disk, d': Disk, i: int, off: int, src: seq<int>)
    requires Shaped(d0) && Owned(d, {}) && Shaped(d') && i in d0.inodes && 0 <= off
    requires Wrote(d0, d, i, off, src) && SameFiles(d, d')
    ensures Wrote(d0, d', i, off, src)
  {
    forall j, x | j in d.inodes && 0 <= x < MAXFILE * BSIZE && Mapped(d, j, x)
      ensures Mapped(d', j, x) && ByteAt(d', j, x) == ByteAt(d, j, x)
    {
      SameFilesByte(d, d', j, x);
    }
  }

  /** d' is d with `more` written at byte cur of file i, inside one block. */
  ghost predicate OneBlock(d: Disk, d': Disk, i: int, cur: int, more: seq<int>)
    requires Shaped(d) && i in d.inodes
  {
    && 0 <= cur && cur % BSIZE + |more| <= BSIZE && cur < MAXFILE * BSIZE && cur + |more| <= MAXFILE * BSIZE
    && (forall k :: 0 <= k < |more| ==> 0 <= more[k] < 256)
    && var b := At(d, i, FileSlot(cur / BSIZE));
       0 < b < |d.data| && d' == SetData(d, b, Overwrite(d.data[b], cur % BSIZE, more))
  }

  lemma OneBlockBytes(d: Disk, d': Disk, i: int, cur: int, more: seq<int>)
    requires Owned(d, {}) && i in d.inodes && OneBlock(d, d', i, cur, more)
    ensures Owned(d', {}) && d'.inodes == d.inodes
    ensures forall j, x :: j in d.inodes && 0 <= x < MAXFILE * BSIZE && Mapped(d, j, x) ==> Mapped(d', j, x)
    ensures forall x :: cur <= x < cur + |more| ==> Mapped(d, i, x) && ByteAt(d', i, x) == more[x - cur]
    ensures forall j, x ::
              j in d.inodes && 0 <= x < MAXFILE * BSIZE && Mapped(d, j, x) && !(j == i && cur <= x < cur + |more|) ==>
              ByteAt(d', j, x) == ByteAt(d, j, x)
  {
    var b := At(d, i, FileSlot(cur / BSIZE));
    MappedInside(d, {}, i, FileSlot(cur / BSIZE));
    SetDataOwned(d, b, Overwrite(d.data[b], cur % BSIZE, more));
    forall j, x | j in d.inodes && 0 <= x < MAXFILE * BSIZE && Mapped(d, j, x)
      ensures Mapped(d', j, x)
      ensures j == i && cur <= x < cur + |more| ==> ByteAt(d', j, x) == more[x - cur]
      ensures !(j == i && cur <= x < cur + |more|) ==> ByteAt(d', j, x) == ByteAt(d, j, x)
    {
      OverwriteByte(d, i, cur, more, j, x);
    }
    forall x | cur <= x < cur + |more|
      ensures Mapped(d, i, x)
    {
      SameBlock(cur, |more|, x);
    }
  }

  lemma WroteMore(d0: Disk, d: Disk, d': Disk, i: int, off: int, src: seq<int>, more: seq<int>)
    requires Shaped(d0) && Owned(d, {}) && i in d0.inodes && 0 <= off && Wrote(d0, d, i, off, src)
    requires i in d.inodes && OneBlock(d, d', i, off + |src|, more)
    ensures Owned(d', {}) && Wrote(d0, d', i, off, src + more)
  {
    hide Owned, OneBlock, ByteAt, Mapped, At, Shaped;
    OwnedShaped(d);
    OneBlockBytes(d, d', i, off + |src|, more);
    OwnedShaped(d');
    OneBlockEnd(d, d', i, off + |src|, more);
    forall x | off <= x < off + |src + more|
      ensures Mapped(d', i, x) && ByteAt(d', i, x) == (src + more)[x - off]
    {
      assert Mapped(d, i, x);
    }
  }

  lemma OwnedShaped(d: Disk)
    requires Owned(d, {})
    ensures Shaped(d)
  {
  }

  lemma OneBlockEnd(d: Disk, d': Disk, i: int, cur: int, more: seq<int>)
    requires Shaped(d) && i in d.inodes && OneBlock(d, d', i, cur, more)
    ensures cur + |more| <= MAXFILE * BSIZE
  {
  }

  /** The disk with inode i's size changed. */
  ghost function SetSize(d: Disk, i: int, size: int): Disk
    requires i in d.inodes
  {
    Disk(d.start, d.used, d.data, d.inodes[i := Inode(d.inodes[i].kind, size, d.inodes[i].addrs)], d.owner)
  }

  lemma SetSizeOwned(d: Disk, i: int, size: int)
    requires Owned(d, {}) && i in d.inodes
    ensures Owned(SetSize(d, i, size), {})
    ensures forall j, k :: j in d.inodes && 0 <= k < SLOTS ==> At(SetSize(d, i, size), j, k) == At(d, j, k)
  {
    var d' := SetSize(d, i, size);
    forall j, k | j in d.inodes && 0 <= k < SLOTS
      ensures At(d', j, k) == At(d, j, k)
    {
      AtFrame(d, d', j, k);
    }
  }

  /** s with t in place of its bytes from off on, as far as t goes. */
  function Overlay(s: seq<int>, off: int, t: seq<int>): (r: seq<int>)
    requires 0 <= off <= |s|
  {
    s[..off] + t + if off + |t| < |s| then s[off + |t|..] else []
  }

  /** The file after a write of src at off of which the first `done` bytes count for the size. */
  lemma WriteResult(d0: Disk, d: Disk, i: int, off: int, src: seq<int>, done: int, size: int)
    requires Owned(d0, {}) && FilesOk(d0) && Owned(d, {}) && i in d0.inodes
    requires 0 <= off <= d0.inodes[i].size && Wrote(d0, d, i, off, src) && 0 <= done <= |src|
    requires size == if off + done > d0.inodes[i].size then off + done else d0.inodes[i].size
    ensures Owned(SetSize(d, i, size), {}) && FilesOk(SetSize(d, i, size))
    ensures Contents(SetSize(d, i, size), i) == Overlay(Contents(d0, i), off, src)[..size]
    ensures forall j :: j in d0.inodes && j != i ==> Contents(SetSize(d, i, size), j) == Contents(d0, j)
  {
    var d' := SetSize(d, i, size);
    SetSizeOwned(d, i, size);
    forall j | j in d0.inodes && j != i
      ensures FileOk(d', j) && Contents(d', j) == Contents(d0, j)
    {
      WriteOther(d0, d, i, off, src, size, j);
    }
    WriteOwn(d0, d, i, off, src, done, size);
  }

  lemma WriteOther(d0: Disk, d: Disk, i: int, off: int, src: seq<int>, size: int, j: int)
    requires Owned(d0, {}) && FilesOk(d0) && Owned(d, {}) && i in d0.inodes && j in d0.inodes && j != i
    requires 0 <= off && Wrote(d0, d, i, off, src)
    ensures Shaped(SetSize(d, i, size)) && FileOk(SetSize(d, i, size), j)
    ensures Contents(SetSize(d, i, size), j) == Contents(d0, j)
  {
    var d' := SetSize(d, i, size);
    SetSizeOwned(d, i, size);
    forall n | 0 <= n < MAXFILE && n * BSIZE < d0.inodes[j].size
      ensures At(d', j, FileSlot(n)) != 0
    {
      assert n * BSIZE / BSIZE == n;
      assert Mapped(d0, j, n * BSIZE);
    }
    forall x | 0 <= x < d0.inodes[j].size
      ensures ByteAt(d', j, x) == ByteAt(d0, j, x)
    {
      assert Mapped(d0, j, x) by { DivMod(x); }
    }
  }

  lemma WriteOwn(d0: Disk, d: Disk, i: int, off: int, src: seq<int>, done: int, size: int)
    requires Owned(d0, {}) && FilesOk(d0) && Owned(d, {}) && i in d0.inodes
    requires 0 <= off <= d0.inodes[i].size && Wrote(d0, d, i, off, src) && 0 <= done <= |src|
    requires size == if off + done > d0.inodes[i].size then off + done else d0.inodes[i].size
    ensures Shaped(SetSize(d, i, size)) && FileOk(SetSize(d, i, size), i)
    ensures size <= |Overlay(Contents(d0, i), off, src)|
    ensures Contents(SetSize(d, i, size), i) == Overlay(Contents(d0, i), off, src)[..size]
  {
    SetSizeOwned(d, i, size);
    var d' := SetSize(d, i, size);
    assert |Contents(d0, i)| == d0.inodes[i].size;
    forall x | 0 <= x < size
      ensures Mapped(d', i, x) && ByteAt(d', i, x) == Overlay(Contents(d0, i), off, src)[x]
    {
      WriteOwnByte(d0, d, i, off, src, size, x);
    }
    forall n | 0 <= n < MAXFILE && n * BSIZE < size
      ensures At(d', i, FileSlot(n)) != 0
    {
      assert n * BSIZE / BSIZE == n;
      assert Mapped(d', i, n * BSIZE);
    }
    assert FileOk(d', i);
  }

  lemma WriteOwnByte(d0: Disk, d: Disk, i: int, off: int, src: seq<int>, size: int, x: int)
    requires Owned(d0, {}) && i in d0.inodes && FileOk(d0, i) && Owned(d, {})
    requires 0 <= off <= d0.inodes[i].size && Wrote(d0, d, i, off, src)
    requires 0 <= x < size && (x < d0.inodes[i].size || x < off + |src|)
    ensures Shaped(SetSize(d, i, size)) && x < MAXFILE * BSIZE && Mapped(SetSize(d, i, size), i, x)
    ensures x < |Overlay(Contents(d0, i), off, src)|
    ensures ByteAt(SetSize(d, i, size), i, x) == Overlay(Contents(d0, i), off, src)[x]
  {
    hide Owned, At;
    ShapedOf(d0);
    ShapedOf(d);
    SetSizeOwned(d, i, size);
    ShapedOf(SetSize(d, i, size));
    if off <= x < off + |src| {
      assert Mapped(d, i, x);
    } else {
      assert Mapped(d0, i, x) by { DivMod(x); }
      assert Mapped(d, i, x);
    }
  }

  lemma ShapedOf(d: Disk)
    requires Owned(d, {})
    ensures Shaped(d)
  {
  }

  lemma WroteNothing(d: Disk, i: int, off: int)
    requires Owned(d, {}) && i in d.inodes && 0 <= off <= MAXFILE * BSIZE
    ensures Wrote(d, d, i, off, [])
  {
  }

  // ----- truncation

  /** Inode i's slots below k are empty; all other slots are as in d0. */
  ghost predicate Emptied(d0: Disk, d: Disk, i: int, k: int)
    requires Shaped(d0) && Shaped(d) && i in d0.inodes && 0 <= k <= SLOTS
  {
    && d.inodes.Keys == d0.inodes.Keys
    && (forall k' :: 0 <= k' < k ==> At(d, i, k') == 0)
    && (forall k' :: k <= k' < SLOTS ==> At(d, i, k') == At(d0, i, k'))
    && (forall j, k' :: j in d0.inodes && j != i && 0 <= k' < SLOTS ==> At(d, j, k') == At(d0, j, k'))
  }

  /** Only the bits of inode i's blocks change: a data block is used now exactly when it was and inode i
      did not own it. */
  lemma TruncatedBits(d0: Disk, d: Disk, i: int, b: int)
    requires Owned(d0, {}) && Owned(d, {}) && i in d0.inodes && Emptied(d0, d, i, SLOTS)
    requires d.start == d0.start && |d.used| == |d0.used| && 0 <= b < |d.used|
    ensures d.used[b] <==> d0.used[b] && !(b in d0.owner && d0.owner[b].inum == i)
  {
    if b in d.owner {
      var s := d.owner[b];
      assert At(d, s.inum, s.k) == b;
      assert s.inum != i;
      assert At(d0, s.inum, s.k) == b;
    }
    if b in d0.owner && d0.owner[b].inum != i {
      var s := d0.owner[b];
      assert At(d, s.inum, s.k) == At(d0, s.inum, s.k) == b;
    }
  }

  /** Contents of a block that is no inode's indirect block do not matter to ownership. */
  lemma DataIrrelevant(d: Disk, b: int, blk: Block)
    requires Owned(d, {}) && 0 < b < |d.data| && b !in d.owner && IsBlock(blk)
    ensures Owned(SetData(d, b, blk), {})
    ensures forall i, k :: i in d.inodes && 0 <= k < SLOTS ==> At(SetData(d, b, blk), i, k) == At(d, i, k)
  {
    var d' := SetData(d, b, blk);
    forall i, k | i in d.inodes && 0 <= k < SLOTS
      ensures At(d', i, k) == At(d, i, k)
    {
      NotIndirect(d, {}, i, b);
    }
  }

  lemma TruncatedOther(d0: Disk, d: Disk, i: int, j: int)
    requires Owned(d0, {}) && FilesOk(d0) && Owned(d, {}) && i in d0.inodes && Emptied(d0, d, i, SLOTS)
    requires d.data == d0.data && j in d0.inodes && j != i && d.inodes[j].size == d0.inodes[j].size
    ensures FileOk(d, j) && Contents(d, j) == Contents(d0, j)
  {
    forall x | 0 <= x < d0.inodes[j].size
      ensures ByteAt(d, j, x) == ByteAt(d0, j, x)
    {
      assert 0 <= FileSlot(x / BSIZE) < SLOTS;
    }
  }

  /** As d1, except that the first j entries of inode i's indirect block are cleared. */
  ghost predicate TailEmptied(d1: Disk, d: Disk, i: int, j: int)
    requires Shaped(d1) && Shaped(d) && i in d1.inodes && 0 <= j <= NINDIRECT
  {
    && d.inodes == d1.inodes && d.start == d1.start && |d.used| == |d1.used|
    && (forall k' :: INDIRECT < k' <= INDIRECT + j ==> At(d, i, k') == 0)
    && (forall k' :: INDIRECT + j < k' < SLOTS ==> At(d, i, k') == At(d1, i, k'))
    && (forall i', k' :: i' in d1.inodes && 0 <= k' < SLOTS && (i' != i || k' <= INDIRECT) ==>
          At(d, i', k') == At(d1, i', k'))
  }

  lemma TailStart(d1: Disk, i: int)
    requires Shaped(d1) && i in d1.inodes
    ensures TailEmptied(d1, d1, i, 0)
  {
  }

  lemma TailSkip(d1: Disk, d: Disk, i: int, j: int)
    requires Shaped(d1) && Shaped(d) && i in d1.inodes && 0 <= j < NINDIRECT && TailEmptied(d1, d, i, j)
    requires At(d1, i, INDIRECT + 1 + j) == 0
    ensures TailEmptied(d1, d, i, j + 1)
  {
  }

  lemma TailStep(d1: Disk, d: Disk, i: int, j: int)
    requires Shaped(d1) && Owned(d, {}) && i in d1.inodes && 0 <= j < NINDIRECT && TailEmptied(d1, d, i, j)
    requires At(d1, i, INDIRECT + 1 + j) != 0
    ensures At(d, i, INDIRECT + 1 + j) == At(d1, i, INDIRECT + 1 + j)
    ensures At(d, i, INDIRECT + 1 + j) < |d.used| && d.used[At(d, i, INDIRECT + 1 + j)]
    ensures Owned(ClearEntry(d, i, j), {}) && TailEmptied(d1, ClearEntry(d, i, j), i, j + 1)
  {
    assert At(d, i, INDIRECT + 1 + j) == At(d1, i, INDIRECT + 1 + j);
    ClearEntryOwned(d, i, j);
  }

  /** The indirect block itself goes last; what its entries still say does not matter then. */
  lemma TailEnd(d0: Disk, d1: Disk, d: Disk, i: int, blk: Block)
    requires Owned(d0, {}) && Shaped(d1) && Owned(d, {}) && i in d0.inodes && Emptied(d0, d1, i, INDIRECT)
    requires TailEmptied(d1, d, i, NINDIRECT) && At(d1, i, INDIRECT) != 0 && IsBlock(blk)
    ensures var ind := At(d1, i, INDIRECT);
            && ind == d.inodes[i].addrs[INDIRECT] && 0 < ind < |d.data| && d.used[ind]
            && var d' := SetData(ClearAddr(d, i, INDIRECT), ind, blk);
               Owned(d', {}) && Emptied(d0, d', i, SLOTS)
  {
    var ind := At(d1, i, INDIRECT);
    assert At(d, i, INDIRECT) == ind;
    MappedInside(d, {}, i, INDIRECT);
    ClearAddrOwned(d, i, INDIRECT);
    var c := ClearAddr(d, i, INDIRECT);
    DataIrrelevant(c, ind, blk);
  }
}
