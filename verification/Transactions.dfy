/**
 kernel/log.c with any number of system calls in progress: begin_op, log_write, end_op, commit and
 recovery as steps of a state machine in which the machine may crash between any two steps.
 */
module Transactions {
  import opened LogFormat

  /** A block update made by file system operation op through log_write. */
  datatype Write = Write(op: nat, block: int, data: Block)

  /** MAXOPBLOCKS and the layout. */
  datatype Config = Config(layout: Layout, maxOp: nat) {
    ghost predicate Valid() {
      layout.Valid() && maxOp >= 1
    }

    /** The log region has a block for the header besides one for each of LOGSIZE entries. */
    ghost predicate Roomy() {
      layout.capacity < layout.size
    }
  }

  /** An operation between begin_op and end_op.  appended counts the log entries it added; inLogWrite
      means it is inside log_write, past the size test and before taking log.lock. */
  datatype Op = Op(appended: nat, inLogWrite: bool)

  datatype Phase =
    | Running
    | WritingLog(i: nat)
    | Installing(i: nat)
    | Finishing
    | Booting
    | Reinstalling(i: nat)

  /** nextOp, ended, written, place, current and txs record the history: place says which
      transaction an operation belongs to (-1 when a crash discarded it). */
  datatype State = State(
    disk: Image,
    cache: Image,
    lh: seq<int>,
    outstanding: int,
    committing: bool,
    phase: Phase,
    active: map<nat, Op>,
    nextOp: nat,
    ended: set<nat>,
    written: map<nat, seq<Write>>,
    place: map<nat, int>,
    current: seq<Write>,
    txs: seq<seq<Write>>)

  datatype Step =
    | BeginOp
    | TestSpace(o: nat)
    | Record(o: nat, b: int, data: Block)
    | EndOp(o: nat)
    | LogBlock
    | WriteHead
    | InstallBlock
    | Erase
    | FinishCommit
    | Crash
    | ReadHead
    | Load(b: int)
    | Evict(b: int)

  /** log_write's first test, made without holding log.lock. */
  predicate TooBig(c: Config, s: State) {
    |s.lh| >= c.layout.capacity || |s.lh| >= c.layout.size - 1
  }

  /** n * max, unfolded one reservation at a time. */
  ghost function Times(n: nat, max: nat): nat {
    if n == 0 then 0 else Times(n - 1, max) + max
  }

  ghost predicate Enabled(c: Config, s: State, t: Step) {
    match t
    case BeginOp =>
      // log.lh.n + (log.outstanding+1)*MAXOPBLOCKS > LOGSIZE makes begin_op wait
      s.phase == Running && !s.committing && s.outstanding >= 0
      && |s.lh| + Times(s.outstanding + 1, c.maxOp) <= c.layout.capacity
    case TestSpace(o) =>
      o in s.active && !s.active[o].inLogWrite && !TooBig(c, s)
    case Record(o, b, data) =>
      && o in s.active && s.active[o].inLogWrite
      && c.layout.Home(b) && IsBlock(data)
      // the callers' side: an operation adds at most MAXOPBLOCKS entries
      && (b in s.lh || s.active[o].appended < c.maxOp)
    case EndOp(o) => o in s.active && !s.active[o].inLogWrite
    case LogBlock => s.phase.WritingLog? && s.phase.i < |s.lh| && s.lh[s.phase.i] in s.cache
    case WriteHead => s.phase.WritingLog? && s.phase.i == |s.lh| < BLOCK_WORDS
    case InstallBlock => (s.phase.Installing? || s.phase.Reinstalling?) && s.phase.i < |s.lh|
    case Erase => (s.phase.Installing? || s.phase.Reinstalling?) && s.phase.i == |s.lh|
    case FinishCommit => s.phase == Finishing
    case Crash => true
    case ReadHead => s.phase == Booting
    case Load(b) => c.layout.Home(b) && b !in s.cache && s.phase != Booting
    case Evict(b) => b !in s.lh
  }

  /** What Do needs to be well formed: the log entries it may touch are on the disk. */
  ghost predicate Sound(c: Config, s: State) {
    && Readable(c.layout, s.disk)
    && c.layout.start + |s.lh| < c.layout.blocks
    && (forall i :: 0 <= i < |s.lh| ==> c.layout.Home(s.lh[i]))
  }

  ghost function DoBegin(s: State): State {
    s.(outstanding := s.outstanding + 1,
       active := s.active[s.nextOp := Op(0, false)],
       nextOp := s.nextOp + 1,
       written := s.written[s.nextOp := []],
       place := s.place[s.nextOp := |s.txs|])
  }

  ghost function DoTest(s: State, o: nat): State
    requires o in s.active
  {
    s.(active := s.active[o := s.active[o].(inLogWrite := true)])
  }

  ghost function DoRecord(s: State, w: Write): State
    requires w.op in s.active
  {
    var isNew := w.block !in s.lh;
    s.(active := s.active[w.op := Op(s.active[w.op].appended + if isNew then 1 else 0, false)],
       lh := if isNew then s.lh + [w.block] else s.lh,
       cache := s.cache[w.block := w.data],
       written := s.written[w.op := (if w.op in s.written then s.written[w.op] else []) + [w]],
       current := s.current + [w])
  }

  ghost function DoEnd(s: State, o: nat): State {
    var last := s.outstanding - 1 == 0;
    s.(outstanding := s.outstanding - 1,
       active := s.active - {o},
       ended := s.ended + {o},
       committing := s.committing || last,
       phase := if last then (if |s.lh| > 0 then WritingLog(0) else Finishing) else s.phase)
  }

  ghost function DoLogBlock(c: Config, s: State): State
    requires s.phase.WritingLog? && s.phase.i < |s.lh| && s.lh[s.phase.i] in s.cache
  {
    s.(disk := s.disk[c.layout.start + 1 + s.phase.i := s.cache[s.lh[s.phase.i]]],
       phase := WritingLog(s.phase.i + 1))
  }

  ghost function DoWriteHead(c: Config, s: State): State
    requires Readable(c.layout, s.disk) && |s.lh| < BLOCK_WORDS
  {
    s.(disk := s.disk[c.layout.start := WithEntries(s.disk[c.layout.start], s.lh)],
       phase := Installing(0),
       txs := s.txs + [s.current],
       current := [])
  }

  ghost function DoInstall(c: Config, s: State): State
    requires (s.phase.Installing? || s.phase.Reinstalling?) && s.phase.i < |s.lh|
    requires c.layout.start + 1 + s.phase.i in s.disk
  {
    var data := s.disk[c.layout.start + 1 + s.phase.i];
    s.(disk := s.disk[s.lh[s.phase.i] := data],
       cache := s.cache[s.lh[s.phase.i] := data],
       phase := if s.phase.Installing? then Installing(s.phase.i + 1) else Reinstalling(s.phase.i + 1))
  }

  ghost function DoErase(c: Config, s: State): State
    requires Readable(c.layout, s.disk)
  {
    s.(disk := s.disk[c.layout.start := WithEntries(s.disk[c.layout.start], [])],
       lh := [],
       phase := if s.phase.Installing? then Finishing else Running)
  }

  ghost function DoFinish(s: State): State {
    s.(committing := false, phase := Running)
  }

  /** Memory is lost, and with it every operation in progress or not yet committed. */
  ghost function DoCrash(s: State): State {
    s.(cache := map[], lh := [], outstanding := 0, committing := false, phase := Booting,
       active := map[], current := [],
       place := map o | o in s.place :: if s.place[o] == |s.txs| then -1 else s.place[o])
  }

  ghost function DoReadHead(c: Config, s: State): State
    requires Readable(c.layout, s.disk)
  {
    s.(lh := Entries(s.disk[c.layout.start]), phase := Reinstalling(0))
  }

  ghost function DoLoad(s: State, b: int): State
    requires b in s.disk
  {
    s.(cache := s.cache[b := s.disk[b]])
  }

  ghost function DoEvict(s: State, b: int): State {
    s.(cache := s.cache - {b})
  }

  ghost function Do(c: Config, s: State, t: Step): State
    requires Sound(c, s) && Enabled(c, s, t)
  {
    match t
    case BeginOp => DoBegin(s)
    case TestSpace(o) => DoTest(s, o)
    case Record(o, b, data) => DoRecord(s, Write(o, b, data))
    case EndOp(o) => DoEnd(s, o)
    case LogBlock => DoLogBlock(c, s)
    case WriteHead => DoWriteHead(c, s)
    case InstallBlock => DoInstall(c, s)
    case Erase => DoErase(c, s)
    case FinishCommit => DoFinish(s)
    case Crash => DoCrash(s)
    case ReadHead => DoReadHead(c, s)
    case Load(b) => DoLoad(s, b)
    case Evict(b) => DoEvict(s, b)
  }

  // ----- meaning of the history

  /** The effect of a list of block updates. */
  ghost function Apply(d: Image, ws: seq<Write>): Image {
    if ws == [] then d
    else Apply(d, ws[..|ws| - 1])[ws[|ws| - 1].block := ws[|ws| - 1].data]
  }

  ghost function ApplyAll(d: Image, txs: seq<seq<Write>>): Image {
    if txs == [] then d else Apply(ApplyAll(d, txs[..|txs| - 1]), txs[|txs| - 1])
  }

  /** The updates among ws that operation o made, in order. */
  ghost function By(ws: seq<Write>, o: nat): seq<Write> {
    if ws == [] then []
    else By(ws[..|ws| - 1], o) + if ws[|ws| - 1].op == o then [ws[|ws| - 1]] else []
  }

  /** First boot on the disk mkfs made: its log is empty. */
  ghost predicate Init(c: Config, base: Image, s: State) {
    && c.Valid()
    && Formatted(c.layout, base)
    && Entries(base[c.layout.start]) == []
    && s.disk == base
    && s == State(s.disk, map[], [], 0, false, Booting, map[], 0, {}, map[], map[], [], [])
  }

  // ----- invariant

  ghost predicate HomeAgrees(c: Config, d: Image, v: Image, except: seq<int>) {
    forall b :: c.layout.Home(b) && b !in except ==> b in d && b in v && d[b] == v[b]
  }

  /** The log blocks hold v's contents of the first k blocks of bs. */
  ghost predicate LogHolds(c: Config, d: Image, v: Image, bs: seq<int>, k: nat) {
    forall j :: 0 <= j < k <= |bs| ==>
      && c.layout.start + 1 + j in d && bs[j] in v
      && d[c.layout.start + 1 + j] == v[bs[j]]
  }

  ghost predicate CacheHolds(c: Config, s: State, v: Image) {
    forall b :: b in s.cache ==> b in v && s.cache[b] == v[b]
  }

  ghost predicate Pinned(s: State) {
    forall i :: 0 <= i < |s.lh| ==> s.lh[i] in s.cache
  }

  ghost predicate Shape(c: Config, s: State) {
    && c.Valid()
    && Formatted(c.layout, s.disk)
    && c.layout.Fits(s.lh)
    && (forall b :: b in s.cache ==> c.layout.Home(b))
  }

  /** No transaction on disk; the cache holds the uncommitted updates. */
  ghost predicate OpenInv(c: Config, s: State, durable: Image)
    requires Formatted(c.layout, s.disk)
  {
    var view := Apply(durable, s.current);
    && AllBlocks(c.layout, view)
    && Entries(s.disk[c.layout.start]) == []
    && HomeAgrees(c, s.disk, durable, [])
    && HomeAgrees(c, durable, view, s.lh)
    && CacheHolds(c, s, view)
    && Pinned(s)
  }

  /** As OpenInv, and the first i log blocks are written. */
  ghost predicate WritingInv(c: Config, s: State, durable: Image, i: nat)
    requires Formatted(c.layout, s.disk)
  {
    && OpenInv(c, s, durable)
    && i <= |s.lh|
    && LogHolds(c, s.disk, Apply(durable, s.current), s.lh, i)
  }

  /** Transaction bs is committed on disk d; home blocks listed before entry i are up to date. */
  ghost predicate CommittedOn(c: Config, d: Image, bs: seq<int>, durable: Image, i: nat)
    requires Formatted(c.layout, d)
  {
    && Entries(d[c.layout.start]) == bs
    && i <= |bs|
    && LogHolds(c, d, durable, bs, |bs|)
    && HomeAgrees(c, d, durable, bs[i..])
  }

  /** Nothing in memory; the log and the home blocks together hold the durable contents. */
  ghost predicate BootInv(c: Config, s: State, durable: Image)
    requires Formatted(c.layout, s.disk)
  {
    var bs := Entries(s.disk[c.layout.start]);
    && s.current == [] && s.lh == [] && s.cache == map[]
    && LogHolds(c, s.disk, durable, bs, |bs|)
    && HomeAgrees(c, s.disk, durable, bs)
  }

  ghost predicate DiskInv(c: Config, s: State, durable: Image) {
    && Shape(c, s)
    && AllBlocks(c.layout, durable)
    && match s.phase
       case Running => OpenInv(c, s, durable)
       case WritingLog(i) => WritingInv(c, s, durable, i)
       case Installing(i) => s.current == [] && CommittedOn(c, s.disk, s.lh, durable, i)
              && CacheHolds(c, s, durable) && Pinned(s)
       case Finishing => OpenInv(c, s, durable) && s.current == [] && s.lh == []
       case Booting => BootInv(c, s, durable)
       case Reinstalling(i) => s.current == [] && CommittedOn(c, s.disk, s.lh, durable, i) && CacheHolds(c, s, s.disk)
  }

  // ----- each step keeps it

  lemma RecordKeepsDisk(c: Config, s: State, w: Write, durable: Image)
    requires DiskInv(c, s, durable) && w.op in s.active && s.phase == Running
    requires c.layout.Home(w.block) && IsBlock(w.data) && c.layout.Fits(DoRecord(s, w).lh)
    ensures DiskInv(c, DoRecord(s, w), durable)
  {
    var s' := DoRecord(s, w);
    assert s'.current[..|s'.current| - 1] == s.current;
    assert Apply(durable, s'.current) == Apply(durable, s.current)[w.block := w.data];
  }

  lemma EndKeepsDisk(c: Config, s: State, o: nat, durable: Image)
    requires DiskInv(c, s, durable) && s.phase == Running && (s.lh == [] ==> s.current == [])
    ensures DiskInv(c, DoEnd(s, o), durable)
  {
  }

  lemma LogBlockKeepsDisk(c: Config, s: State, durable: Image)
    requires DiskInv(c, s, durable) && s.phase.WritingLog? && s.phase.i < |s.lh|
    ensures s.lh[s.phase.i] in s.cache && DiskInv(c, DoLogBlock(c, s), durable)
  {
  }

  lemma WriteHeadKeepsDisk(c: Config, s: State, durable: Image)
    requires DiskInv(c, s, durable) && s.phase.WritingLog? && s.phase.i == |s.lh|
    ensures DiskInv(c, DoWriteHead(c, s), Apply(durable, s.current))
  {
    EntriesRoundTrip(c.layout, s.disk[c.layout.start], s.lh);
    assert s.lh[0..] == s.lh;
  }

  lemma CopyHome(c: Config, d: Image, durable: Image, bs: seq<int>, i: nat)
    requires c.Valid() && Formatted(c.layout, d) && c.layout.Fits(bs) && i < |bs|
    requires CommittedOn(c, d, bs, durable, i)
    ensures var d' := d[bs[i] := d[c.layout.start + 1 + i]];
            && Formatted(c.layout, d')
            && bs[i] in durable && d'[bs[i]] == durable[bs[i]]
            && CommittedOn(c, d', bs, durable, i + 1)
  {
    assert bs[i..] == [bs[i]] + bs[i + 1..];
  }

  lemma InstallKeepsCache(c: Config, s: State, v: Image, b: int, data: Block)
    requires CacheHolds(c, s, v) && b in v && v[b] == data
    ensures CacheHolds(c, s.(cache := s.cache[b := data]), v)
    ensures Pinned(s) ==> Pinned(s.(cache := s.cache[b := data]))
  {
  }

  lemma LogBlockThere(c: Config, d: Image, bs: seq<int>, i: nat)
    requires c.Valid() && Formatted(c.layout, d) && c.layout.Fits(bs) && i < |bs|
    ensures c.layout.start + 1 + i in d && c.layout.Home(bs[i])
  {
  }

  lemma InstallKeepsDisk(c: Config, s: State, durable: Image)
    requires DiskInv(c, s, durable) && s.phase.Installing? && s.phase.i < |s.lh|
    ensures c.layout.start + 1 + s.phase.i in s.disk && DiskInv(c, DoInstall(c, s), durable)
  {
    hide CommittedOn, Formatted, OpenInv, WritingInv, BootInv, CacheHolds, Pinned, AllBlocks, HomeAgrees, LogHolds;
    LogBlockThere(c, s.disk, s.lh, s.phase.i);
    var b := s.lh[s.phase.i];
    var data := s.disk[c.layout.start + 1 + s.phase.i];
    CopyHome(c, s.disk, durable, s.lh, s.phase.i);
    InstallKeepsCache(c, s, durable, b, data);
    var s1 := s.(cache := s.cache[b := data]);
    CacheOnly(c, s1, DoInstall(c, s), durable);
  }

  lemma CacheOnly(c: Config, s: State, s': State, v: Image)
    requires CacheHolds(c, s, v) && Pinned(s) && s'.cache == s.cache && s'.lh == s.lh
    ensures CacheHolds(c, s', v) && Pinned(s')
  {
  }

  lemma ReinstallKeepsDisk(c: Config, s: State, durable: Image)
    requires DiskInv(c, s, durable) && s.phase.Reinstalling? && s.phase.i < |s.lh|
    ensures c.layout.start + 1 + s.phase.i in s.disk && DiskInv(c, DoInstall(c, s), durable)
  {
    hide CommittedOn, Formatted, OpenInv, WritingInv, BootInv, Pinned, AllBlocks, HomeAgrees, LogHolds;
    LogBlockThere(c, s.disk, s.lh, s.phase.i);
    CopyHome(c, s.disk, durable, s.lh, s.phase.i);
  }

  lemma EraseKeepsDisk(c: Config, s: State, durable: Image)
    requires DiskInv(c, s, durable) && (s.phase.Installing? || s.phase.Reinstalling?) && s.phase.i == |s.lh|
    ensures DiskInv(c, DoErase(c, s), durable)
  {
    EntriesRoundTrip(c.layout, s.disk[c.layout.start], []);
  }

  lemma CommittedIsBootable(c: Config, s: State, durable: Image, i: nat)
    requires Shape(c, s) && CommittedOn(c, s.disk, s.lh, durable, i)
    ensures var bs := Entries(s.disk[c.layout.start]);
            LogHolds(c, s.disk, durable, bs, |bs|) && HomeAgrees(c, s.disk, durable, bs)
  {
    forall b | b !in s.lh
      ensures b !in s.lh[i..]
    {
    }
  }

  /** Whatever the phase, the disk alone determines the durable contents. */
  lemma CrashKeepsDisk(c: Config, s: State, durable: Image)
    requires DiskInv(c, s, durable)
    ensures DiskInv(c, DoCrash(s), durable)
  {
    if s.phase.Installing? || s.phase.Reinstalling? {
      CommittedIsBootable(c, s, durable, s.phase.i);
    }
  }

  lemma ReadHeadKeepsDisk(c: Config, s: State, durable: Image)
    requires DiskInv(c, s, durable) && s.phase.Booting?
    ensures DiskInv(c, DoReadHead(c, s), durable)
  {
    assert Entries(s.disk[c.layout.start])[0..] == Entries(s.disk[c.layout.start]);
  }

  lemma LoadKeepsDisk(c: Config, s: State, b: int, durable: Image)
    requires DiskInv(c, s, durable) && c.layout.Home(b) && b !in s.cache && !s.phase.Booting?
    ensures b in s.disk && DiskInv(c, DoLoad(s, b), durable)
  {
  }

  lemma EvictKeepsDisk(c: Config, s: State, b: int, durable: Image)
    requires DiskInv(c, s, durable) && b !in s.lh
    ensures DiskInv(c, DoEvict(s, b), durable)
  {
  }

  // ----- log space: reservations of the operations in progress

  /** Log entries the operations in m may still add. */
  ghost function Unspent(m: map<nat, Op>, max: nat): int {
    if m == map[] then 0
    else
      var o :| o in m;
      max - m[o].appended + Unspent(m - {o}, max)
  }

  lemma {:induction false} UnspentSplit(m: map<nat, Op>, max: nat, o: nat)
    requires o in m
    ensures Unspent(m, max) == max - m[o].appended + Unspent(m - {o}, max)
    decreases |m|
  {
    var k :| k in m && Unspent(m, max) == max - m[k].appended + Unspent(m - {k}, max);
    if k != o {
      assert |m - {k}| < |m| && |m - {o}| < |m| by {
        assert (m - {k}).Keys == m.Keys - {k} && (m - {o}).Keys == m.Keys - {o};
      }
      UnspentSplit(m - {k}, max, o);
      UnspentSplit(m - {o}, max, k);
      assert m - {k} - {o} == m - {o} - {k};
    }
  }

  lemma UnspentUpdate(m: map<nat, Op>, max: nat, o: nat, v: Op)
    ensures o in m ==> Unspent(m[o := v], max) == Unspent(m, max) + m[o].appended - v.appended
    ensures o !in m ==> Unspent(m[o := v], max) == Unspent(m, max) + max - v.appended
  {
    UnspentSplit(m[o := v], max, o);
    assert m[o := v] - {o} == m - {o};
    if o in m {
      UnspentSplit(m, max, o);
    } else {
      assert m - {o} == m;
    }
  }

  lemma {:induction false} UnspentBounds(m: map<nat, Op>, max: nat)
    requires forall o :: o in m ==> m[o].appended <= max
    ensures 0 <= Unspent(m, max) <= Times(|m|, max)
    decreases |m|
  {
    if m != map[] {
      var k :| k in m && Unspent(m, max) == max - m[k].appended + Unspent(m - {k}, max);
      var rest := m - {k};
      assert rest.Keys == m.Keys - {k};
      UnspentBounds(rest, max);
    }
  }

  lemma UnspentOf(m: map<nat, Op>, max: nat, o: nat)
    requires o in m && forall k :: k in m ==> m[k].appended <= max
    ensures max - m[o].appended <= Unspent(m, max)
  {
    UnspentSplit(m, max, o);
    UnspentBounds(m - {o}, max);
  }

  ghost predicate InCommit(p: Phase) {
    p.WritingLog? || p.Installing? || p.Finishing?
  }

  /** begin_op/end_op bookkeeping and the space reservation. */
  ghost predicate ControlInv(c: Config, s: State) {
    && s.outstanding == |s.active|
    && (s.committing <==> InCommit(s.phase))
    && (s.phase != Running ==> s.active == map[])
    && (forall o :: o in s.active ==> s.active[o].appended <= c.maxOp)
    && (s.phase == Running ==> |s.lh| + Unspent(s.active, c.maxOp) <= c.layout.capacity)
    && (s.phase == Finishing ==> s.lh == [])
  }

  lemma BeginKeepsControl(c: Config, s: State)
    requires ControlInv(c, s) && s.nextOp !in s.active && s.phase == Running
    requires |s.lh| + Times(|s.active| + 1, c.maxOp) <= c.layout.capacity
    ensures ControlInv(c, DoBegin(s))
  {
    UnspentUpdate(s.active, c.maxOp, s.nextOp, Op(0, false));
    UnspentBounds(s.active, c.maxOp);
    assert s.active[s.nextOp := Op(0, false)].Keys == s.active.Keys + {s.nextOp};
  }

  lemma RecordKeepsControl(c: Config, s: State, w: Write)
    requires ControlInv(c, s) && w.op in s.active
    requires w.block in s.lh || s.active[w.op].appended < c.maxOp
    ensures ControlInv(c, DoRecord(s, w))
  {
    var s' := DoRecord(s, w);
    UnspentUpdate(s.active, c.maxOp, w.op, s'.active[w.op]);
    assert s'.active.Keys == s.active.Keys;
  }

  lemma BeginControl(c: Config, s: State)
    requires ControlInv(c, s) && HistoryInv(s) && Enabled(c, s, BeginOp)
    ensures ControlInv(c, DoBegin(s))
  {
    assert s.nextOp !in s.active;
    BeginKeepsControl(c, s);
  }

  lemma TestKeepsControl(c: Config, s: State, o: nat)
    requires ControlInv(c, s) && o in s.active
    ensures ControlInv(c, DoTest(s, o))
  {
    var s' := DoTest(s, o);
    UnspentUpdate(s.active, c.maxOp, o, s'.active[o]);
    assert s'.active.Keys == s.active.Keys;
  }

  lemma EndKeepsControl(c: Config, s: State, o: nat)
    requires ControlInv(c, s) && o in s.active
    ensures ControlInv(c, DoEnd(s, o))
  {
    var s' := DoEnd(s, o);
    UnspentSplit(s.active, c.maxOp, o);
    assert s'.active.Keys == s.active.Keys - {o};
    assert s'.outstanding == 0 ==> s'.active == map[];
  }

  // ----- history: which transaction each operation's writes are in

  lemma {:induction false} ByNone(ws: seq<Write>, o: nat)
    requires forall i :: 0 <= i < |ws| ==> ws[i].op != o
    ensures By(ws, o) == []
  {
    if ws != [] {
      ByNone(ws[..|ws| - 1], o);
    }
  }

  lemma ByAppend(ws: seq<Write>, w: Write, o: nat)
    ensures By(ws + [w], o) == By(ws, o) + if w.op == o then [w] else []
  {
    assert (ws + [w])[..|ws|] == ws;
  }

  ghost predicate Placed(place: map<nat, int>, ws: seq<Write>, j: int) {
    forall i :: 0 <= i < |ws| ==> ws[i].op in place && place[ws[i].op] == j
  }

  /** Operations are numbered in the order they begin, and each has a place. */
  ghost predicate PlaceInv(s: State) {
    && (forall o: nat :: o in s.place <==> o < s.nextOp)
    && (forall o :: o in s.place ==> -1 <= s.place[o] <= |s.txs|)
    && (forall o :: o in s.active ==> o in s.place && s.place[o] == |s.txs| && o !in s.ended)
    && (forall o :: o in s.place && s.place[o] >= 0 ==> o in s.active || o in s.ended)
    && (forall o :: o in s.ended ==> o in s.place)
  }

  /** A transaction holds writes of the operations placed in it, and all of them. */
  ghost predicate WritesInv(s: State) {
    && (forall o :: o in s.place ==> o in s.written)
    && (forall o :: o in s.place && 0 <= s.place[o] < |s.txs| ==> By(s.txs[s.place[o]], o) == s.written[o])
    && (forall o :: o in s.place && s.place[o] == |s.txs| ==> By(s.current, o) == s.written[o])
    && (forall j :: 0 <= j < |s.txs| ==> Placed(s.place, s.txs[j], j))
    && Placed(s.place, s.current, |s.txs|)
  }

  ghost predicate HistoryInv(s: State) {
    PlaceInv(s) && WritesInv(s)
  }

  lemma BeginKeepsWrites(s: State)
    requires HistoryInv(s)
    ensures WritesInv(DoBegin(s))
  {
    ByNone(s.current, s.nextOp);
  }

  lemma BeginKeepsHistory(s: State)
    requires HistoryInv(s)
    ensures HistoryInv(DoBegin(s))
  {
    BeginKeepsWrites(s);
  }

  lemma RecordKeepsHistory(s: State, w: Write)
    requires HistoryInv(s) && w.op in s.active
    ensures HistoryInv(DoRecord(s, w))
  {
    forall o: nat
      ensures By(s.current + [w], o) == By(s.current, o) + if w.op == o then [w] else []
    {
      ByAppend(s.current, w, o);
    }
  }

  lemma EndKeepsHistory(s: State, o: nat)
    requires HistoryInv(s) && o in s.active
    ensures HistoryInv(DoEnd(s, o))
  {
  }

  lemma WriteHeadKeepsHistory(c: Config, s: State)
    requires Readable(c.layout, s.disk) && |s.lh| < BLOCK_WORDS
    requires HistoryInv(s) && s.active == map[]
    ensures HistoryInv(DoWriteHead(c, s))
  {
  }

  lemma CrashKeepsHistory(s: State)
    requires HistoryInv(s)
    ensures HistoryInv(DoCrash(s))
  {
  }

  // ----- every run

  ghost predicate Inv(c: Config, base: Image, s: State) {
    && DiskInv(c, s, ApplyAll(base, s.txs))
    && ControlInv(c, s)
    && HistoryInv(s)
    && (s.lh == [] ==> s.current == [])
  }

  /** A log entry added by an operation within its reservation fits in the header. */
  lemma RecordFits(c: Config, base: Image, s: State, w: Write)
    requires c.Roomy() && Inv(c, base, s)
    requires w.op in s.active && c.layout.Home(w.block)
    requires w.block in s.lh || s.active[w.op].appended < c.maxOp
    ensures c.layout.Fits(DoRecord(s, w).lh)
  {
    UnspentOf(s.active, c.maxOp, w.op);
  }

  lemma RecordKeepsInv(c: Config, base: Image, s: State, w: Write)
    requires Inv(c, base, s) && w.op in s.active && c.layout.Home(w.block) && IsBlock(w.data)
    requires c.layout.Fits(DoRecord(s, w).lh)
    requires w.block in s.lh || s.active[w.op].appended < c.maxOp
    ensures Inv(c, base, DoRecord(s, w))
  {
    hide DiskInv, HistoryInv, Unspent;
    RecordKeepsDisk(c, s, w, ApplyAll(base, s.txs));
    RecordKeepsControl(c, s, w);
    RecordKeepsHistory(s, w);
  }

  lemma WriteHeadKeepsInv(c: Config, base: Image, s: State)
    requires Inv(c, base, s) && s.phase.WritingLog? && s.phase.i == |s.lh|
    ensures Inv(c, base, DoWriteHead(c, s))
  {
    var s' := DoWriteHead(c, s);
    assert s'.txs[..|s'.txs| - 1] == s.txs;
    WriteHeadKeepsDisk(c, s, ApplyAll(base, s.txs));
    WriteHeadKeepsHistory(c, s);
  }

  lemma BeginKeepsInv(c: Config, base: Image, s: State)
    requires Inv(c, base, s) && Sound(c, s) && Enabled(c, s, BeginOp)
    ensures Inv(c, base, DoBegin(s))
  {
    hide ControlInv, HistoryInv, Times, OpenInv;
    BeginControl(c, s);
    BeginKeepsHistory(s);
    OpenApart(c, s, DoBegin(s), ApplyAll(base, s.txs));
  }

  /** The disk part of the invariant does not look at the operations in progress. */
  lemma OpenApart(c: Config, s: State, s': State, durable: Image)
    requires DiskInv(c, s, durable) && s'.disk == s.disk && s'.cache == s.cache && s'.lh == s.lh && s'.phase == s.phase
             && s'.current == s.current
    ensures DiskInv(c, s', durable)
  {
  }

  lemma TestKeepsInv(c: Config, base: Image, s: State, o: nat)
    requires Inv(c, base, s) && o in s.active
    ensures Inv(c, base, DoTest(s, o))
  {
    hide ControlInv, HistoryInv, DiskInv;
    TestKeepsControl(c, s, o);
    TestKeepsHistory(s, o);
    OpenApart(c, s, DoTest(s, o), ApplyAll(base, s.txs));
  }

  lemma EndKeepsInv(c: Config, base: Image, s: State, o: nat)
    requires Inv(c, base, s) && o in s.active
    ensures Inv(c, base, DoEnd(s, o))
  {
    hide DiskInv, HistoryInv, Unspent;
    EndKeepsDisk(c, s, o, ApplyAll(base, s.txs));
    EndKeepsControl(c, s, o);
    EndKeepsHistory(s, o);
  }

  lemma InstallKeepsInv(c: Config, base: Image, s: State)
    requires Inv(c, base, s) && (s.phase.Installing? || s.phase.Reinstalling?) && s.phase.i < |s.lh|
    ensures c.layout.start + 1 + s.phase.i in s.disk && Inv(c, base, DoInstall(c, s))
  {
    var durable := ApplyAll(base, s.txs);
    if s.phase.Installing? {
      InstallKeepsDisk(c, s, durable);
    } else {
      ReinstallKeepsDisk(c, s, durable);
    }
    var s' := DoInstall(c, s);
    assert ControlInv(c, s') && HistoryInv(s');
  }

  lemma LogBlockKeepsInv(c: Config, base: Image, s: State)
    requires Inv(c, base, s) && s.phase.WritingLog? && s.phase.i < |s.lh|
    ensures s.lh[s.phase.i] in s.cache && Inv(c, base, DoLogBlock(c, s))
  {
    LogBlockKeepsDisk(c, s, ApplyAll(base, s.txs));
    assert HistoryInv(DoLogBlock(c, s));
  }

  lemma EraseKeepsInv(c: Config, base: Image, s: State)
    requires Inv(c, base, s) && (s.phase.Installing? || s.phase.Reinstalling?) && s.phase.i == |s.lh|
    ensures Inv(c, base, DoErase(c, s))
  {
    hide HistoryInv, CommittedOn, CacheHolds, OpenInv, Unspent;
    EraseKeepsDisk(c, s, ApplyAll(base, s.txs));
    ControlApart(c, s, Erase);
    BooksApart(s, DoErase(c, s));
  }

  lemma FinishKeepsInv(c: Config, base: Image, s: State)
    requires Inv(c, base, s) && s.phase.Finishing?
    ensures Inv(c, base, DoFinish(s))
  {
    hide HistoryInv, Unspent;
    FinishDisk(c, s, ApplyAll(base, s.txs));
    BooksApart(s, DoFinish(s));
    assert Unspent(map[], c.maxOp) == 0 by {
      UnspentNone(c.maxOp);
    }
  }

  lemma UnspentNone(max: nat)
    ensures Unspent(map[], max) == 0
  {
  }

  lemma FinishDisk(c: Config, s: State, durable: Image)
    requires DiskInv(c, s, durable) && s.phase.Finishing?
    ensures DiskInv(c, DoFinish(s), durable)
  {
  }

  lemma CrashKeepsInv(c: Config, base: Image, s: State)
    requires Inv(c, base, s)
    ensures Inv(c, base, DoCrash(s))
  {
    CrashKeepsDisk(c, s, ApplyAll(base, s.txs));
    CrashKeepsHistory(s);
    assert ControlInv(c, DoCrash(s));
  }

  lemma ReadHeadKeepsInv(c: Config, base: Image, s: State)
    requires Inv(c, base, s) && s.phase.Booting?
    ensures Inv(c, base, DoReadHead(c, s))
  {
    ReadHeadKeepsDisk(c, s, ApplyAll(base, s.txs));
    assert HistoryInv(DoReadHead(c, s));
  }

  lemma LoadKeepsInv(c: Config, base: Image, s: State, b: int)
    requires Inv(c, base, s) && c.layout.Home(b) && b !in s.cache && !s.phase.Booting?
    ensures b in s.disk && Inv(c, base, DoLoad(s, b))
  {
    LoadKeepsDisk(c, s, b, ApplyAll(base, s.txs));
    assert HistoryInv(DoLoad(s, b));
  }

  lemma EvictKeepsInv(c: Config, base: Image, s: State, b: int)
    requires Inv(c, base, s) && b !in s.lh
    ensures Inv(c, base, DoEvict(s, b))
  {
    EvictKeepsDisk(c, s, b, ApplyAll(base, s.txs));
    assert HistoryInv(DoEvict(s, b));
  }

  lemma StepKeepsInv(c: Config, base: Image, s: State, t: Step)
    requires Inv(c, base, s) && Sound(c, s) && Enabled(c, s, t) && c.layout.Fits(Do(c, s, t).lh)
    ensures Inv(c, base, Do(c, s, t))
  {
    hide Inv, DoBegin, DoTest, DoRecord, DoEnd, DoLogBlock, DoWriteHead, DoInstall, DoErase, DoFinish, DoCrash;
    hide DoReadHead, DoLoad, DoEvict;
    match t
    case BeginOp => BeginKeepsInv(c, base, s);
    case TestSpace(o) => TestKeepsInv(c, base, s, o);
    case Record(o, b, data) => RecordKeepsInv(c, base, s, Write(o, b, data));
    case EndOp(o) => EndKeepsInv(c, base, s, o);
    case LogBlock => LogBlockKeepsInv(c, base, s);
    case WriteHead => WriteHeadKeepsInv(c, base, s);
    case InstallBlock => InstallKeepsInv(c, base, s);
    case Erase => EraseKeepsInv(c, base, s);
    case FinishCommit => FinishKeepsInv(c, base, s);
    case Crash => CrashKeepsInv(c, base, s);
    case ReadHead => ReadHeadKeepsInv(c, base, s);
    case Load(b) => LoadKeepsInv(c, base, s, b);
    case Evict(b) => EvictKeepsInv(c, base, s, b);
  }

  lemma InitInv(c: Config, base: Image, s: State)
    requires Init(c, base, s)
    ensures Inv(c, base, s)
  {
  }

  ghost predicate Next(c: Config, s: State, s': State) {
    exists t :: Sound(c, s) && Enabled(c, s, t) && s' == Do(c, s, t)
  }

  /** The states of a run, from the first boot on. */
  ghost predicate Run(c: Config, base: Image, ss: seq<State>) {
    && |ss| >= 1
    && Init(c, base, ss[0])
    && forall i :: 0 <= i < |ss| - 1 ==> Next(c, ss[i], ss[i + 1])
  }

  lemma {:induction false} RunInv(c: Config, base: Image, ss: seq<State>)
    requires Run(c, base, ss) && forall i :: 0 <= i < |ss| ==> c.layout.Fits(ss[i].lh)
    ensures Inv(c, base, ss[|ss| - 1])
  {
    hide Inv, Init, Enabled, Sound;
    if |ss| == 1 {
      InitInv(c, base, ss[0]);
    } else {
      var n := |ss| - 1;
      RunInv(c, base, ss[..n]);
      assert Next(c, ss[n - 1], ss[n - 1 + 1]);
      var s := ss[n - 1];
      var t :| Sound(c, s) && Enabled(c, s, t) && ss[n] == Do(c, s, t);
      hide Do;
      StepKeepsInv(c, base, s, t);
    }
  }

  // ----- what holds whatever the size of the log region

  /** The bookkeeping of begin_op and end_op and the history need nothing of the disk. */
  lemma StepKeepsControl(c: Config, s: State, t: Step)
    requires ControlInv(c, s) && HistoryInv(s) && Sound(c, s) && Enabled(c, s, t)
    ensures ControlInv(c, Do(c, s, t))
  {
    hide HistoryInv, Readable;
    match t
    case BeginOp => BeginControl(c, s);
    case TestSpace(o) => TestKeepsControl(c, s, o);
    case Record(o, b, data) => RecordKeepsControl(c, s, Write(o, b, data));
    case EndOp(o) => EndKeepsControl(c, s, o);
    case _ => ControlApart(c, s, t);
  }

  /** The steps of commit and recovery do not touch the operations in progress, or find none. */
  lemma ControlApart(c: Config, s: State, t: Step)
    requires ControlInv(c, s) && Sound(c, s) && Enabled(c, s, t)
    requires !t.BeginOp? && !t.TestSpace? && !t.Record? && !t.EndOp?
    ensures ControlInv(c, Do(c, s, t))
  {
    hide Readable;
    if t.Crash? || t.Erase? || t.FinishCommit? {
      assert Unspent(map[], c.maxOp) == 0;
    }
  }

  lemma StepKeepsHistory(c: Config, s: State, t: Step)
    requires ControlInv(c, s) && HistoryInv(s) && Sound(c, s) && Enabled(c, s, t)
    ensures HistoryInv(Do(c, s, t))
  {
    hide HistoryInv, Readable;
    match t
    case BeginOp => BeginKeepsHistory(s);
    case TestSpace(o) => TestKeepsHistory(s, o);
    case Record(o, b, data) => RecordKeepsHistory(s, Write(o, b, data));
    case EndOp(o) => EndKeepsHistory(s, o);
    case WriteHead => WriteHeadKeepsHistory(c, s);
    case Crash => CrashKeepsHistory(s);
    case _ => BooksApart(s, Do(c, s, t));
  }

  lemma TestKeepsHistory(s: State, o: nat)
    requires HistoryInv(s) && o in s.active
    ensures HistoryInv(DoTest(s, o))
  {
    hide WritesInv;
    WritesApart(s, DoTest(s, o));
  }

  lemma WritesApart(s: State, s': State)
    requires WritesInv(s)
    requires s'.written == s.written && s'.place == s.place && s'.current == s.current && s'.txs == s.txs
    ensures WritesInv(s')
  {
  }

  lemma BooksApart(s: State, s': State)
    requires HistoryInv(s) && s'.active == s.active && s'.ended == s.ended && s'.nextOp == s.nextOp
    requires s'.written == s.written && s'.place == s.place && s'.current == s.current && s'.txs == s.txs
    ensures HistoryInv(s')
  {
    hide WritesInv;
    WritesApart(s, s');
  }

  lemma {:induction false} RunBooks(c: Config, base: Image, ss: seq<State>)
    requires Run(c, base, ss)
    ensures ControlInv(c, ss[|ss| - 1]) && HistoryInv(ss[|ss| - 1])
  {
    var n := |ss| - 1;
    if n > 0 {
      RunBooks(c, base, ss[..n]);
      assert Next(c, ss[n - 1], ss[n - 1 + 1]);
      var t :| Sound(c, ss[n - 1]) && Enabled(c, ss[n - 1], t) && ss[n] == Do(c, ss[n - 1], t);
      hide Do, Sound, Enabled, ControlInv, HistoryInv;
      StepKeepsControl(c, ss[n - 1], t);
      StepKeepsHistory(c, ss[n - 1], t);
    }
  }

  // ----- a log region with room for LOGSIZE entries and a header

  lemma RoomyStepFits(c: Config, base: Image, s: State, t: Step)
    requires c.Roomy() && Inv(c, base, s) && Sound(c, s) && Enabled(c, s, t)
    ensures c.layout.Fits(Do(c, s, t).lh)
  {
    if t.Record? {
      RecordFits(c, base, s, Write(t.o, t.b, t.data));
    }
  }

  /** With a roomy log region the log stays inside it. */
  lemma {:induction false} RoomyFits(c: Config, base: Image, ss: seq<State>)
    requires c.Roomy() && Run(c, base, ss)
    ensures forall i :: 0 <= i < |ss| ==> c.layout.Fits(ss[i].lh)
  {
    var n := |ss| - 1;
    if n > 0 {
      RoomyFits(c, base, ss[..n]);
      RunInv(c, base, ss[..n]);
      assert Next(c, ss[n - 1], ss[n - 1 + 1]);
      var t :| Sound(c, ss[n - 1]) && Enabled(c, ss[n - 1], t) && ss[n] == Do(c, ss[n - 1], t);
      RoomyStepFits(c, base, ss[n - 1], t);
      forall i | 0 <= i < |ss| ensures c.layout.Fits(ss[i].lh) {
        if i < n {
          assert ss[..n][i] == ss[i];
        }
      }
    }
  }

  /** Inv is enough for recovery to produce the durable contents, whatever the phase. */
  lemma InvGivesRecovered(c: Config, base: Image, s: State)
    requires Inv(c, base, s)
    ensures HomeOf(c.layout, Recovered(c.layout, s.disk)) == HomeOf(c.layout, ApplyAll(base, s.txs))
  {
    var durable := ApplyAll(base, s.txs);
    CrashKeepsDisk(c, s, durable);
    BootRecovers(c, s.disk, durable);
  }

  lemma BootRecoversAt(c: Config, d: Image, durable: Image, b: int)
    requires Formatted(c.layout, d) && AllBlocks(c.layout, durable) && c.layout.Home(b)
    requires var bs := Entries(d[c.layout.start]);
             LogHolds(c, d, durable, bs, |bs|) && HomeAgrees(c, d, durable, bs)
    ensures b in Recovered(c.layout, d) && Recovered(c.layout, d)[b] == durable[b]
  {
    hide Entries, Recovered, LastIndex;
    var bs := Entries(d[c.layout.start]);
    RecoveredAt(c.layout, d, b);
    LastIndexFinds(bs, b);
  }

  lemma LastIndexFinds(bs: seq<int>, b: int)
    ensures -1 <= LastIndex(bs, |bs|, b) < |bs|
    ensures LastIndex(bs, |bs|, b) < 0 ==> b !in bs
    ensures LastIndex(bs, |bs|, b) >= 0 ==> bs[LastIndex(bs, |bs|, b)] == b
  {
    assert bs[..|bs|] == bs;
  }

  lemma BootRecovers(c: Config, d: Image, durable: Image)
    requires Formatted(c.layout, d) && AllBlocks(c.layout, durable)
    requires var bs := Entries(d[c.layout.start]);
             LogHolds(c, d, durable, bs, |bs|) && HomeAgrees(c, d, durable, bs)
    ensures HomeOf(c.layout, Recovered(c.layout, d)) == HomeOf(c.layout, durable)
  {
    forall b | c.layout.Home(b)
      ensures b in Recovered(c.layout, d) && Recovered(c.layout, d)[b] == durable[b]
    {
      BootRecoversAt(c, d, durable, b);
    }
  }

  /** In every run whose log stays inside its region, with crashes and recoveries anywhere: if the machine
      stopped now, recovery would produce exactly the effect of the transactions committed so far, in order. */
  lemma CrashYieldsCommitted(c: Config, base: Image, ss: seq<State>)
    requires Run(c, base, ss) && forall i :: 0 <= i < |ss| ==> c.layout.Fits(ss[i].lh)
    ensures var s := ss[|ss| - 1];
            && Formatted(c.layout, s.disk)
            && HomeOf(c.layout, Recovered(c.layout, s.disk)) == HomeOf(c.layout, ApplyAll(base, s.txs))
  {
    RunInv(c, base, ss);
    InvGivesRecovered(c, base, ss[|ss| - 1]);
  }

  /** With a roomy log region that is every run. */
  lemma RoomyCrashYieldsCommitted(c: Config, base: Image, ss: seq<State>)
    requires c.Roomy() && Run(c, base, ss)
    ensures var s := ss[|ss| - 1];
            && Formatted(c.layout, s.disk)
            && HomeOf(c.layout, Recovered(c.layout, s.disk)) == HomeOf(c.layout, ApplyAll(base, s.txs))
  {
    RoomyFits(c, base, ss);
    CrashYieldsCommitted(c, base, ss);
  }

  /** In every run: a transaction consists of whole operations.  An operation with a write in
      transaction j has ended, all its writes are in transaction j, in order, and no other
      transaction has one. */
  lemma WholeOperations(c: Config, base: Image, ss: seq<State>, j: nat, i: nat, k: nat)
    requires Run(c, base, ss)
    requires var s := ss[|ss| - 1]; j < |s.txs| && i < |s.txs[j]| && k < |s.txs|
    ensures var s := ss[|ss| - 1];
            var o := s.txs[j][i].op;
            && o in s.ended && o !in s.active && o in s.written
            && By(s.txs[j], o) == s.written[o]
            && (k != j ==> By(s.txs[k], o) == [])
  {
    RunBooks(c, base, ss);
    var s := ss[|ss| - 1];
    var o := s.txs[j][i].op;
    assert Placed(s.place, s.txs[j], j) && Placed(s.place, s.txs[k], k);
    if k != j {
      ByNone(s.txs[k], o);
    }
  }

  /** In every run: while a commit is in progress no operation is, so end_op's "log.committing" panic
      cannot happen, nor log_write's "log_write outside of trans". */
  lemma CommitIsAlone(c: Config, base: Image, ss: seq<State>)
    requires Run(c, base, ss)
    ensures var s := ss[|ss| - 1];
            && s.outstanding == |s.active|
            && (s.committing ==> s.outstanding == 0)
            && (s.active != map[] ==> !s.committing && s.outstanding >= 1)
  {
    RunBooks(c, base, ss);
  }

  /** In every run: the entries in the log and those the operations in progress may still add never exceed
      LOGSIZE together. */
  lemma ReservationHolds(c: Config, base: Image, ss: seq<State>)
    requires Run(c, base, ss)
    ensures var s := ss[|ss| - 1];
            && (forall o :: o in s.active ==> s.active[o].appended <= c.maxOp)
            && (s.active != map[] ==> |s.lh| + Unspent(s.active, c.maxOp) <= c.layout.capacity)
  {
    RunBooks(c, base, ss);
  }

  /** In every run: an operation within its allowance of MAXOPBLOCKS entries passes log_write's size
      test whenever the write would add an entry. */
  lemma AppendNeverTooBig(c: Config, base: Image, ss: seq<State>, o: nat)
    requires c.Roomy() && Run(c, base, ss)
    requires var s := ss[|ss| - 1]; o in s.active && s.active[o].appended < c.maxOp
    ensures !TooBig(c, ss[|ss| - 1])
  {
    RunBooks(c, base, ss);
    var s := ss[|ss| - 1];
    UnspentOf(s.active, c.maxOp, o);
  }

  /** In every run: the size test fails exactly when the log is full, and then every operation in
      progress has used up its allowance, so only writes to blocks already logged can panic. */
  lemma TooBigExactlyWhenFull(c: Config, base: Image, ss: seq<State>)
    requires c.Roomy() && Run(c, base, ss)
    ensures var s := ss[|ss| - 1];
            && (TooBig(c, s) <==> |s.lh| == c.layout.capacity)
            && (TooBig(c, s) ==> forall o :: o in s.active ==> s.active[o].appended == c.maxOp)
  {
    RoomyFits(c, base, ss);
    RunBooks(c, base, ss);
    var s := ss[|ss| - 1];
    forall o | o in s.active && s.active[o].appended < c.maxOp
      ensures !TooBig(c, s)
    {
      AppendNeverTooBig(c, base, ss, o);
    }
  }
}
