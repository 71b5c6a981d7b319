/**
 The on-disk redo log of kernel/log.c: where the header and the logged blocks live, and what a
 completed recovery makes of a disk image.  A disk is a map from block number to block; block
 writes are atomic and ordered.
 */
module LogFormat {

  /** A block read as 32-bit words, the way the log header is read and written. */
  type Block = seq<int>

  type Image = map<int, Block>

  /** BSIZE / sizeof(int) */
  const BLOCK_WORDS: nat := 256

  /** log.start, log.size, LOGSIZE and the number of blocks on the disk. */
  datatype Layout = Layout(start: nat, size: nat, capacity: nat, blocks: nat) {

    /** initlog panics unless the header is smaller than a block. */
    ghost predicate Valid() {
      && 1 <= size
      && start + size <= blocks
      && capacity + 1 < BLOCK_WORDS
    }

    /** Block numbers outside the log region: what the file system may log. */
    predicate Home(b: int) {
      0 <= b < blocks && !(start <= b < start + size)
    }

    predicate Homes(bs: seq<int>) {
      forall i :: 0 <= i < |bs| ==> Home(bs[i])
    }

    /** A list of block numbers that a header can hold and the log region has room for. */
    predicate Fits(bs: seq<int>) {
      |bs| <= capacity && |bs| <= size - 1 && Homes(bs)
    }
  }

  ghost predicate IsBlock(b: Block) { |b| == BLOCK_WORDS }

  ghost predicate IsHeader(l: Layout, h: Block) {
    && |h| == BLOCK_WORDS
    && 0 <= h[0] <= l.capacity < BLOCK_WORDS - 1
    && l.Fits(h[1..1 + h[0]])
  }

  /** The block numbers a header block lists: lh->block[0..lh->n]. */
  function Entries(h: Block): seq<int>
    requires |h| == BLOCK_WORDS && 0 <= h[0] < BLOCK_WORDS
  {
    h[1..1 + h[0]]
  }

  /** A header block listing bs; the words past the last entry keep their old value. */
  function WithEntries(h: Block, bs: seq<int>): Block
    requires |h| == BLOCK_WORDS && |bs| < BLOCK_WORDS
  {
    [|bs|] + bs + h[1 + |bs|..]
  }

  ghost predicate AllBlocks(l: Layout, d: Image) {
    && (forall b :: b in d <==> 0 <= b < l.blocks)
    && (forall b :: b in d ==> IsBlock(d[b]))
  }

  ghost predicate Formatted(l: Layout, d: Image) {
    && l.Valid()
    && AllBlocks(l, d)
    && IsHeader(l, d[l.start])
  }

  /** A disk whose header can be read, whether or not the log region has room for what it lists. */
  ghost predicate Readable(l: Layout, d: Image) {
    l.Valid() && AllBlocks(l, d) && 0 <= d[l.start][0] < BLOCK_WORDS
  }

  /** The image after install_trans has copied the first k logged blocks home. */
  ghost function Installed(l: Layout, d: Image, bs: seq<int>, k: nat): (r: Image)
    requires l.Valid() && AllBlocks(l, d) && l.Fits(bs) && k <= |bs|
    ensures AllBlocks(l, r)
  {
    if k == 0 then d
    else
      var p := Installed(l, d, bs, k - 1);
      p[bs[k - 1] := p[l.start + k]]
  }

  /** The image after write_log has copied the first k cached blocks into the log. */
  ghost function Logged(l: Layout, d: Image, vs: seq<Block>, k: nat): (r: Image)
    requires l.Valid() && AllBlocks(l, d) && |vs| <= l.size - 1 && k <= |vs|
    requires forall i :: 0 <= i < |vs| ==> IsBlock(vs[i])
    ensures AllBlocks(l, r)
  {
    if k == 0 then d else Logged(l, d, vs, k - 1)[l.start + k := vs[k - 1]]
  }

  /** The images after each of the first k block writes of write_log. */
  ghost function LogPoints(l: Layout, d: Image, vs: seq<Block>, k: nat): (ps: seq<Image>)
    requires l.Valid() && AllBlocks(l, d) && |vs| <= l.size - 1 && k <= |vs|
    requires forall i :: 0 <= i < |vs| ==> IsBlock(vs[i])
    ensures |ps| == k && forall i :: 0 <= i < k ==> ps[i] == Logged(l, d, vs, i + 1)
  {
    if k == 0 then [] else LogPoints(l, d, vs, k - 1) + [Logged(l, d, vs, k)]
  }

  /** The images after each of the first k block writes of install_trans. */
  ghost function InstallPoints(l: Layout, d: Image, bs: seq<int>, k: nat): (ps: seq<Image>)
    requires l.Valid() && AllBlocks(l, d) && l.Fits(bs) && k <= |bs|
    ensures |ps| == k && forall i :: 0 <= i < k ==> ps[i] == Installed(l, d, bs, i + 1)
  {
    if k == 0 then [] else InstallPoints(l, d, bs, k - 1) + [Installed(l, d, bs, k)]
  }

  lemma LoggedNone(l: Layout, d: Image, vs: seq<Block>)
    requires l.Valid() && AllBlocks(l, d) && |vs| <= l.size - 1 && forall i :: 0 <= i < |vs| ==> IsBlock(vs[i])
    ensures Logged(l, d, vs, 0) == d && LogPoints(l, d, vs, 0) == []
  {
  }

  lemma InstalledNone(l: Layout, d: Image, bs: seq<int>)
    requires l.Valid() && AllBlocks(l, d) && l.Fits(bs)
    ensures Installed(l, d, bs, 0) == d && InstallPoints(l, d, bs, 0) == []
  {
  }

  lemma LoggedMore(l: Layout, d: Image, vs: seq<Block>, k: nat)
    requires l.Valid() && AllBlocks(l, d) && |vs| <= l.size - 1 && k < |vs|
    requires forall i :: 0 <= i < |vs| ==> IsBlock(vs[i])
    ensures Logged(l, d, vs, k + 1) == Logged(l, d, vs, k)[l.start + k + 1 := vs[k]]
    ensures LogPoints(l, d, vs, k + 1) == LogPoints(l, d, vs, k) + [Logged(l, d, vs, k + 1)]
  {
  }

  lemma InstalledMore(l: Layout, d: Image, bs: seq<int>, k: nat)
    requires l.Valid() && AllBlocks(l, d) && l.Fits(bs) && k < |bs|
    ensures l.start + k + 1 in Installed(l, d, bs, k)
    ensures Installed(l, d, bs, k + 1) == Installed(l, d, bs, k)[bs[k] := Installed(l, d, bs, k)[l.start + k + 1]]
    ensures InstallPoints(l, d, bs, k + 1) == InstallPoints(l, d, bs, k) + [Installed(l, d, bs, k + 1)]
  {
  }

  /** The contents of blocks bs in image v. */
  ghost function DataOf(v: Image, bs: seq<int>): (vs: seq<Block>)
    requires forall i :: 0 <= i < |bs| ==> bs[i] in v
    ensures |vs| == |bs| && forall i :: 0 <= i < |bs| ==> vs[i] == v[bs[i]]
  {
    seq(|bs|, i requires 0 <= i < |bs| => v[bs[i]])
  }

  /** What a recovery that is not interrupted makes of an image. */
  ghost function Recovered(l: Layout, d: Image): (r: Image)
    requires Formatted(l, d)
  {
    var bs := Entries(d[l.start]);
    Installed(l, d, bs, |bs|)[l.start := WithEntries(d[l.start], [])]
  }

  /** The part of an image the file system sees. */
  ghost function HomeOf(l: Layout, d: Image): Image {
    map b | b in d && l.Home(b) :: d[b]
  }

  /** p is an image some crash during the recovery of d can leave behind. */
  ghost predicate RecoveryPoint(l: Layout, d: Image, p: Image)
    requires Formatted(l, d)
  {
    || p == Recovered(l, d)
    || exists k: nat :: k <= |Entries(d[l.start])| && p == Installed(l, d, Entries(d[l.start]), k)
  }

  /** Each image is left by a crash during the recovery of the one before it. */
  ghost predicate CrashChain(l: Layout, ps: seq<Image>) {
    forall i :: 0 <= i < |ps| - 1 ==> Formatted(l, ps[i]) && RecoveryPoint(l, ps[i], ps[i + 1])
  }

  // ----- headers

  lemma EntriesRoundTrip(l: Layout, h: Block, bs: seq<int>)
    requires l.Valid() && |h| == BLOCK_WORDS && l.Fits(bs)
    ensures IsHeader(l, WithEntries(h, bs))
    ensures Entries(WithEntries(h, bs)) == bs
  {
    var w := WithEntries(h, bs);
    assert w[1..1 + w[0]] == bs;
  }

  // ----- what installing does to one block

  /** The last of the first k entries that names b, or -1. */
  ghost function LastIndex(bs: seq<int>, k: nat, b: int): (r: int)
    requires k <= |bs|
    ensures -1 <= r < k
    ensures r >= 0 ==> bs[r] == b
    ensures r < 0 <==> b !in bs[..k]
  {
    if k == 0 then -1
    else
      assert bs[..k] == bs[..k - 1] + [bs[k - 1]];
      if bs[k - 1] == b then k - 1 else LastIndex(bs, k - 1, b)
  }

  lemma {:induction false} InstalledAt(l: Layout, d: Image, bs: seq<int>, k: nat, b: int)
    requires l.Valid() && AllBlocks(l, d) && l.Fits(bs) && k <= |bs| && b in d
    ensures b in Installed(l, d, bs, k)
    ensures Installed(l, d, bs, k)[b]
            == if LastIndex(bs, k, b) < 0 then d[b] else d[l.start + 1 + LastIndex(bs, k, b)]
  {
    hide Installed;
    InstalledStep(l, d, bs, k, b);
    if k > 0 {
      InstalledAt(l, d, bs, k - 1, b);
      SlotNotListed(l, bs, k);
      InstalledAt(l, d, bs, k - 1, l.start + k);
    }
  }

  lemma InstalledStep(l: Layout, d: Image, bs: seq<int>, k: nat, b: int)
    requires l.Valid() && AllBlocks(l, d) && l.Fits(bs) && k <= |bs| && b in d
    ensures b in Installed(l, d, bs, k) && (k == 0 ==> Installed(l, d, bs, k)[b] == d[b])
    ensures k > 0 ==> var p := Installed(l, d, bs, k - 1);
                      l.start + k in p && l.start + k in d && b in p
                        && Installed(l, d, bs, k)[b] == if bs[k - 1] == b then p[l.start + k] else p[b]
  {
  }

  /** Blocks of the log are not home blocks. */
  lemma SlotNotListed(l: Layout, bs: seq<int>, k: nat)
    requires l.Valid() && l.Fits(bs) && 1 <= k <= |bs|
    ensures LastIndex(bs, k - 1, l.start + k) < 0
  {
    hide LastIndex;
  }

  lemma InstalledOutside(l: Layout, d: Image, bs: seq<int>, k: nat, b: int)
    requires l.Valid() && AllBlocks(l, d) && l.Fits(bs) && k <= |bs| && b in d && !l.Home(b)
    ensures Installed(l, d, bs, k)[b] == d[b]
  {
    InstalledAt(l, d, bs, k, b);
  }

  lemma RecoveredAt(l: Layout, d: Image, b: int)
    requires Formatted(l, d) && l.Home(b)
    ensures b in Recovered(l, d)
    ensures var bs := Entries(d[l.start]);
            Recovered(l, d)[b]
            == if LastIndex(bs, |bs|, b) < 0 then d[b] else d[l.start + 1 + LastIndex(bs, |bs|, b)]
  {
    InstalledAt(l, d, Entries(d[l.start]), |Entries(d[l.start])|, b);
  }

  lemma RecoveredFormatted(l: Layout, d: Image)
    requires Formatted(l, d)
    ensures Formatted(l, Recovered(l, d))
    ensures Entries(Recovered(l, d)[l.start]) == []
  {
    EntriesRoundTrip(l, d[l.start], []);
  }

  // ----- recovery can be restarted from any crash point

  lemma InstalledFormatted(l: Layout, d: Image, k: nat)
    requires Formatted(l, d) && k <= |Entries(d[l.start])|
    ensures var p := Installed(l, d, Entries(d[l.start]), k);
            Formatted(l, p) && p[l.start] == d[l.start]
  {
    InstalledOutside(l, d, Entries(d[l.start]), k, l.start);
  }

  lemma PartialInstallSameOutcome(l: Layout, d: Image, k: nat, b: int)
    requires Formatted(l, d) && k <= |Entries(d[l.start])| && l.Home(b)
    requires Formatted(l, Installed(l, d, Entries(d[l.start]), k))
    ensures b in Recovered(l, d) && b in Recovered(l, Installed(l, d, Entries(d[l.start]), k))
    ensures Recovered(l, Installed(l, d, Entries(d[l.start]), k))[b] == Recovered(l, d)[b]
  {
    hide Recovered, LastIndex;
    var bs := Entries(d[l.start]);
    var p := Installed(l, d, bs, k);
    InstalledFormatted(l, d, k);
    hide Installed;
    RecoveredAt(l, d, b);
    RecoveredAt(l, p, b);
    var j := LastIndex(bs, |bs|, b);
    if j < 0 {
      InstalledAt(l, d, bs, k, b);
      assert b !in bs[..k] by { assert bs[..|bs|] == bs; }
    } else {
      InstalledOutside(l, d, bs, k, l.start + 1 + j);
    }
  }

  lemma EmptyLogIsRecovered(l: Layout, d: Image)
    requires Formatted(l, d) && Entries(d[l.start]) == []
    ensures HomeOf(l, Recovered(l, d)) == HomeOf(l, d)
  {
    forall b | l.Home(b)
      ensures b in Recovered(l, d) && Recovered(l, d)[b] == d[b]
    {
      RecoveredAt(l, d, b);
    }
  }

  /** Crashing anywhere inside recovery does not change what recovery will produce. */
  lemma RecoveryPointSameOutcome(l: Layout, d: Image, p: Image)
    requires Formatted(l, d) && RecoveryPoint(l, d, p)
    ensures Formatted(l, p)
    ensures HomeOf(l, Recovered(l, p)) == HomeOf(l, Recovered(l, d))
  {
    if p == Recovered(l, d) {
      RecoveredFormatted(l, d);
      EmptyLogIsRecovered(l, p);
    } else {
      var k: nat :| k <= |Entries(d[l.start])| && p == Installed(l, d, Entries(d[l.start]), k);
      InstalledFormatted(l, d, k);
      forall b | l.Home(b)
        ensures b in Recovered(l, d) && b in Recovered(l, p) && Recovered(l, p)[b] == Recovered(l, d)[b]
      {
        PartialInstallSameOutcome(l, d, k, b);
      }
    }
  }

  /** Any number of crashes, each inside the recovery from the previous one, is harmless. */
  lemma {:induction false} CrashesDuringRecovery(l: Layout, ps: seq<Image>)
    requires |ps| >= 1 && Formatted(l, ps[0]) && CrashChain(l, ps)
    ensures Formatted(l, ps[|ps| - 1])
    ensures HomeOf(l, Recovered(l, ps[|ps| - 1])) == HomeOf(l, Recovered(l, ps[0]))
  {
    if |ps| > 1 {
      var init := ps[..|ps| - 1];
      CrashesDuringRecovery(l, init);
      assert RecoveryPoint(l, ps[|ps| - 2], ps[|ps| - 1]);
      RecoveryPointSameOutcome(l, ps[|ps| - 2], ps[|ps| - 1]);
    }
  }

  // ----- the two sides of the commit point

  lemma {:induction false} LoggedAt(l: Layout, d: Image, vs: seq<Block>, k: nat, b: int)
    requires l.Valid() && AllBlocks(l, d) && |vs| <= l.size - 1 && k <= |vs| && b in d
    requires forall i :: 0 <= i < |vs| ==> IsBlock(vs[i])
    ensures b in Logged(l, d, vs, k)
    ensures Logged(l, d, vs, k)[b] == if l.start < b <= l.start + k then vs[b - l.start - 1] else d[b]
  {
    if k > 0 {
      LoggedAt(l, d, vs, k - 1, b);
    }
  }

  /** Until the header is written, the transaction in the log region does not count. */
  lemma BeforeCommitPoint(l: Layout, d: Image, vs: seq<Block>, k: nat)
    requires Formatted(l, d) && Entries(d[l.start]) == []
    requires |vs| <= l.size - 1 && k <= |vs| && forall i :: 0 <= i < |vs| ==> IsBlock(vs[i])
    ensures Formatted(l, Logged(l, d, vs, k))
    ensures HomeOf(l, Recovered(l, Logged(l, d, vs, k))) == HomeOf(l, d)
  {
    var p := Logged(l, d, vs, k);
    LoggedAt(l, d, vs, k, l.start);
    EmptyLogIsRecovered(l, p);
    forall b | l.Home(b)
      ensures p[b] == d[b]
    {
      LoggedAt(l, d, vs, k, b);
    }
  }

  /** The image the commit point leaves: every logged block in the log, the header listing them. */
  ghost function Committed(l: Layout, d: Image, bs: seq<int>, vs: seq<Block>): Image
    requires Formatted(l, d) && l.Fits(bs) && |vs| == |bs|
    requires forall i :: 0 <= i < |vs| ==> IsBlock(vs[i])
  {
    Logged(l, d, vs, |vs|)[l.start := WithEntries(d[l.start], bs)]
  }

  lemma CommittedFormatted(l: Layout, d: Image, bs: seq<int>, vs: seq<Block>)
    requires Formatted(l, d) && l.Fits(bs) && |vs| == |bs|
    requires forall i :: 0 <= i < |vs| ==> IsBlock(vs[i])
    ensures Formatted(l, Committed(l, d, bs, vs))
    ensures Entries(Committed(l, d, bs, vs)[l.start]) == bs
  {
    EntriesRoundTrip(l, d[l.start], bs);
  }

  lemma CommittedOutcome(l: Layout, d: Image, bs: seq<int>, vs: seq<Block>, b: int)
    requires Formatted(l, d) && l.Fits(bs) && |vs| == |bs| && l.Home(b)
    requires forall i :: 0 <= i < |vs| ==> IsBlock(vs[i])
    requires Formatted(l, Committed(l, d, bs, vs))
    ensures b in Recovered(l, Committed(l, d, bs, vs))
    ensures Recovered(l, Committed(l, d, bs, vs))[b]
            == if LastIndex(bs, |bs|, b) < 0 then d[b] else vs[LastIndex(bs, |bs|, b)]
  {
    hide Recovered, Entries, WithEntries, Logged, LastIndex;
    CommittedFormatted(l, d, bs, vs);
    var p := Committed(l, d, bs, vs);
    RecoveredAt(l, p, b);
    var j := LastIndex(bs, |bs|, b);
    LoggedAt(l, d, vs, |vs|, if j < 0 then b else l.start + 1 + j);
  }

  /** Once the header is written, recovery yields the new contents of every logged block. */
  lemma AfterCommitPoint(l: Layout, d: Image, bs: seq<int>, vs: seq<Block>, view: Image)
    requires Formatted(l, d) && l.Fits(bs) && |vs| == |bs|
    requires AllBlocks(l, view)
    requires forall i :: 0 <= i < |bs| ==> vs[i] == view[bs[i]]
    requires forall b :: l.Home(b) && b !in bs ==> view[b] == d[b]
    ensures Formatted(l, Committed(l, d, bs, vs))
    ensures HomeOf(l, Recovered(l, Committed(l, d, bs, vs))) == HomeOf(l, view)
  {
    CommittedFormatted(l, d, bs, vs);
    forall b | l.Home(b)
      ensures b in Recovered(l, Committed(l, d, bs, vs))
      ensures Recovered(l, Committed(l, d, bs, vs))[b] == view[b]
    {
      CommittedOutcome(l, d, bs, vs, b);
      assert bs[..|bs|] == bs;
    }
  }

  // ----- one whole commit

  /** The images after each block write of commit: log blocks, header, home blocks, empty header. */
  ghost function CommitPoints(l: Layout, d: Image, bs: seq<int>, vs: seq<Block>): (ps: seq<Image>)
    requires Formatted(l, d) && l.Fits(bs) && |vs| == |bs|
    requires forall i :: 0 <= i < |vs| ==> IsBlock(vs[i])
    ensures |ps| == 2 * |bs| + 2
  {
    CommittedFormatted(l, d, bs, vs);
    var c := Committed(l, d, bs, vs);
    LogPoints(l, d, vs, |vs|) + [c] + InstallPoints(l, c, bs, |bs|) + [Recovered(l, c)]
  }

  /** The k-th write from the header on is a point of the recovery from the committed image. */
  lemma CommitPointsAfterHeader(l: Layout, d: Image, bs: seq<int>, vs: seq<Block>, k: nat)
    requires Formatted(l, d) && l.Fits(bs) && |vs| == |bs|
    requires forall i :: 0 <= i < |vs| ==> IsBlock(vs[i])
    requires |bs| <= k < 2 * |bs| + 2
    ensures Formatted(l, Committed(l, d, bs, vs))
    ensures RecoveryPoint(l, Committed(l, d, bs, vs), CommitPoints(l, d, bs, vs)[k])
  {
    CommittedFormatted(l, d, bs, vs);
    var c := Committed(l, d, bs, vs);
    var p := CommitPoints(l, d, bs, vs)[k];
    if k == |bs| {
      assert p == Installed(l, c, bs, 0);
    } else if k < 2 * |bs| + 1 {
      assert p == InstallPoints(l, c, bs, |bs|)[k - |bs| - 1];
      assert p == Installed(l, c, bs, k - |bs|);
    }
  }

  /** Crash atomicity of commit: the outcome is the old home blocks before the header write and
      the new ones from then on. */
  lemma CommitPointOutcome(l: Layout, d: Image, bs: seq<int>, vs: seq<Block>, view: Image, k: nat)
    requires Formatted(l, d) && Entries(d[l.start]) == [] && l.Fits(bs)
    requires AllBlocks(l, view) && vs == DataOf(view, bs)
    requires forall b :: l.Home(b) && b !in bs ==> view[b] == d[b]
    requires k < 2 * |bs| + 2
    ensures Formatted(l, CommitPoints(l, d, bs, vs)[k])
    ensures HomeOf(l, Recovered(l, CommitPoints(l, d, bs, vs)[k])) == HomeOf(l, if k < |bs| then d else view)
  {
    hide Recovered, HomeOf, CommitPoints, Committed, RecoveryPoint, Entries, Logged;
    if k < |bs| {
      EarlyPoint(l, d, bs, vs, k);
      BeforeCommitPoint(l, d, vs, k + 1);
    } else {
      CommitPointsAfterHeader(l, d, bs, vs, k);
      RecoveryPointSameOutcome(l, Committed(l, d, bs, vs), CommitPoints(l, d, bs, vs)[k]);
      AfterCommitPoint(l, d, bs, vs, view);
    }
  }

  lemma EarlyPoint(l: Layout, d: Image, bs: seq<int>, vs: seq<Block>, k: nat)
    requires Formatted(l, d) && l.Fits(bs) && |vs| == |bs| && k < |bs|
    requires forall i :: 0 <= i < |vs| ==> IsBlock(vs[i])
    ensures CommitPoints(l, d, bs, vs)[k] == Logged(l, d, vs, k + 1)
  {
    hide Recovered, HomeOf, Committed, Entries;
    assert CommitPoints(l, d, bs, vs)[k] == LogPoints(l, d, vs, |vs|)[k];
  }

  lemma CommitOutcome(l: Layout, d: Image, bs: seq<int>, vs: seq<Block>, view: Image)
    requires Formatted(l, d) && Entries(d[l.start]) == [] && l.Fits(bs)
    requires AllBlocks(l, view) && vs == DataOf(view, bs)
    requires forall b :: l.Home(b) && b !in bs ==> view[b] == d[b]
    ensures var ps := CommitPoints(l, d, bs, vs);
            forall k :: 0 <= k < |ps| ==>
              && Formatted(l, ps[k])
              && HomeOf(l, Recovered(l, ps[k])) == HomeOf(l, if k < |bs| then d else view)
  {
    var ps := CommitPoints(l, d, bs, vs);
    forall k | 0 <= k < |ps|
      ensures Formatted(l, ps[k])
      ensures HomeOf(l, Recovered(l, ps[k])) == HomeOf(l, if k < |bs| then d else view)
    {
      CommitPointOutcome(l, d, bs, vs, view, k);
    }
  }

  /** Crash atomicity: a crash after the k-th block write of commit, then any number of crashes
      inside recovery, then a recovery that completes, gives exactly the home blocks from before
      the transaction or exactly those after it; the latter if and only if the header write, which
      is write number |bs|, reached the disk. */
  lemma CrashAtomicity(l: Layout, d: Image, bs: seq<int>, view: Image, k: nat, crashes: seq<Image>)
    requires Formatted(l, d) && Entries(d[l.start]) == [] && l.Fits(bs)
    requires AllBlocks(l, view) && forall b :: l.Home(b) && b !in bs ==> view[b] == d[b]
    requires k < 2 * |bs| + 2
    requires |crashes| >= 1 && crashes[0] == CommitPoints(l, d, bs, DataOf(view, bs))[k] && CrashChain(l, crashes)
    ensures Formatted(l, crashes[|crashes| - 1])
    ensures HomeOf(l, Recovered(l, crashes[|crashes| - 1])) == HomeOf(l, if k < |bs| then d else view)
  {
    CommitPointOutcome(l, d, bs, DataOf(view, bs), view, k);
    CrashesDuringRecovery(l, crashes);
  }
}
