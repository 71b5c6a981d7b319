/**
 Where the size test of log_write (kernel/log.c) is not enough: runs of the machine in Transactions
 that fill the log completely, and runs that overrun a log region with fewer than LOGSIZE + 1 blocks,
 which is what mkfs lays out.
 */
module LogLimits {
  import opened LogFormat
  import opened Transactions

  ghost predicate Reachable(c: Config, base: Image, s: State) {
    exists ss :: Run(c, base, ss) && ss[|ss| - 1] == s
  }

  lemma ReachInit(c: Config, base: Image, s: State)
    requires Init(c, base, s)
    ensures Reachable(c, base, s)
  {
    assert Run(c, base, [s]);
  }

  lemma ReachNext(c: Config, base: Image, s: State, t: Step)
    requires Reachable(c, base, s) && Sound(c, s) && Enabled(c, s, t)
    ensures Reachable(c, base, Do(c, s, t))
  {
    var ss :| Run(c, base, ss) && ss[|ss| - 1] == s;
    var s' := Do(c, s, t);
    assert Next(c, s, s');
    assert Run(c, base, ss + [s']);
  }

  /** A configuration as in kernel/param.h: LOGSIZE is a multiple of MAXOPBLOCKS, and there are at
      least LOGSIZE file system blocks after the log. */
  ghost predicate Plain(c: Config, q: nat) {
    && c.Valid()
    && c.layout.capacity == Times(q, c.maxOp)
    && c.layout.start + c.layout.size + c.layout.capacity <= c.layout.blocks
  }

  /** Operations 0..q are in progress, none inside log_write; operation o has added n(o) entries; the
      log lists the first blocks after the log region. */
  ghost predicate Filling(c: Config, s: State, n: seq<nat>) {
    && s.phase == Running
    && Formatted(c.layout, s.disk)
    && (forall o: nat :: o in s.active <==> o < |n|)
    && (forall o: nat :: o < |n| ==> s.active[o] == Op(n[o], false))
    && |s.lh| <= c.layout.capacity
    && (forall i :: 0 <= i < |s.lh| ==> s.lh[i] == c.layout.start + c.layout.size + i)
  }

  function Zeros(k: nat): (r: seq<nat>)
    ensures |r| == k && forall i :: 0 <= i < k ==> r[i] == 0
  {
    if k == 0 then [] else Zeros(k - 1) + [0]
  }

  function Sum(n: seq<nat>): nat {
    if n == [] then 0 else Sum(n[..|n| - 1]) + n[|n| - 1]
  }

  lemma {:induction false} TimesMonotone(k: nat, q: nat, max: nat)
    requires k <= q
    ensures Times(k, max) <= Times(q, max)
    decreases q - k
  {
    if k < q {
      TimesMonotone(k + 1, q, max);
    }
  }

  /** Boot on a disk with an empty log. */
  lemma ReachRunning(c: Config, q: nat, base: Image) returns (s: State)
    requires Plain(c, q) && Formatted(c.layout, base) && Entries(base[c.layout.start]) == []
    ensures Reachable(c, base, s) && Filling(c, s, []) && s.lh == []
    ensures s.outstanding == 0 && s.nextOp == 0 && !s.committing
  {
    var s0 := State(base, map[], [], 0, false, Booting, map[], 0, {}, map[], map[], [], []);
    ReachInit(c, base, s0);
    ReachNext(c, base, s0, ReadHead);
    var s1 := Do(c, s0, ReadHead);
    ReachNext(c, base, s1, Erase);
    s := Do(c, s1, Erase);
    EntriesRoundTrip(c.layout, base[c.layout.start], []);
  }

  lemma {:induction false} ReachBegun(c: Config, q: nat, base: Image, k: nat) returns (s: State)
    requires Plain(c, q) && Formatted(c.layout, base) && Entries(base[c.layout.start]) == [] && k <= q
    ensures Reachable(c, base, s) && Filling(c, s, Zeros(k)) && s.lh == []
    ensures s.outstanding == k && s.nextOp == k && !s.committing
  {
    hide Reachable;
    if k == 0 {
      s := ReachRunning(c, q, base);
    } else {
      var p := ReachBegun(c, q, base, k - 1);
      s := BeginNext(c, q, base, p, k);
    }
  }

  lemma BeginNext(c: Config, q: nat, base: Image, p: State, k: nat) returns (s: State)
    requires Plain(c, q) && 1 <= k <= q && Reachable(c, base, p) && Filling(c, p, Zeros(k - 1)) && p.lh == []
    requires p.outstanding == k - 1 && p.nextOp == k - 1 && !p.committing
    ensures Reachable(c, base, s) && Filling(c, s, Zeros(k)) && s.lh == []
    ensures s.outstanding == k && s.nextOp == k && !s.committing
  {
    hide Reachable;
    TimesMonotone(k, q, c.maxOp);
    ReachNext(c, base, p, BeginOp);
    s := Do(c, p, BeginOp);
  }

  /** One log_write by operation o to the next unlogged block. */
  lemma ReachOneMore(c: Config, q: nat, base: Image, p: State, n: seq<nat>, o: nat) returns (s: State)
    requires Plain(c, q) && Reachable(c, base, p) && Filling(c, p, n)
    requires o < |n| && n[o] < c.maxOp && !TooBig(c, p)
    ensures Reachable(c, base, s) && Filling(c, s, n[o := n[o] + 1]) && |s.lh| == |p.lh| + 1
  {
    ReachNext(c, base, p, TestSpace(o));
    s := RecordNext(c, q, base, Do(c, p, TestSpace(o)), o);
  }

  /** The rest of a log_write that has passed the size test. */
  lemma RecordNext(c: Config, q: nat, base: Image, p: State, o: nat) returns (s: State)
    requires Plain(c, q) && Reachable(c, base, p) && Sound(c, p)
    requires o in p.active && p.active[o].inLogWrite && p.active[o].appended < c.maxOp
    requires |p.lh| < c.layout.capacity
    requires forall i :: 0 <= i < |p.lh| ==> p.lh[i] == c.layout.start + c.layout.size + i
    ensures Reachable(c, base, s)
    ensures s.lh == p.lh + [c.layout.start + c.layout.size + |p.lh|]
    ensures s.active == p.active[o := Op(p.active[o].appended + 1, false)]
    ensures s.phase == p.phase && s.disk == p.disk
  {
    var b := c.layout.start + c.layout.size + |p.lh|;
    var t := Record(o, b, p.disk[c.layout.start]);
    ReachNext(c, base, p, t);
    s := Do(c, p, t);
  }

  /** k log_writes by operation o. */
  lemma {:induction false} ReachMore(c: Config, q: nat, base: Image, p: State, n: seq<nat>, o: nat, k: nat)
    returns (s: State)
    requires Plain(c, q) && Reachable(c, base, p) && Filling(c, p, n)
    requires o < |n| && n[o] + k <= c.maxOp
    requires |p.lh| + k <= c.layout.capacity && |p.lh| + k <= c.layout.size - 1
    ensures Reachable(c, base, s) && Filling(c, s, n[o := n[o] + k]) && |s.lh| == |p.lh| + k
  {
    hide Reachable, Plain;
    if k == 0 {
      s := p;
      assert n[o := n[o]] == n;
    } else {
      var r := ReachMore(c, q, base, p, n, o, k - 1);
      var m := n[o := n[o] + (k - 1)];
      s := ReachOneMore(c, q, base, r, m, o);
      assert m[o := m[o] + 1] == n[o := n[o] + k];
    }
  }

  lemma {:induction false} SumPrefix(m: seq<nat>, k: nat)
    requires k <= |m|
    ensures Sum(m[..k]) <= Sum(m)
    decreases |m| - k
  {
    if k < |m| {
      assert m[..k + 1][..k] == m[..k];
      SumPrefix(m, k + 1);
    } else {
      assert m[..k] == m;
    }
  }

  lemma PrefixStep(m: seq<nat>, k: nat)
    requires 1 <= k <= |m|
    ensures var n := m[..k - 1] + Zeros(|m| - (k - 1));
            n[k - 1] == 0 && n[k - 1 := m[k - 1]] == m[..k] + Zeros(|m| - k)
    ensures Sum(m[..k]) == Sum(m[..k - 1]) + m[k - 1]
    ensures Sum(m[..k]) <= Sum(m)
  {
    assert m[..k][..k - 1] == m[..k - 1];
    SumPrefix(m, k);
  }

  lemma ReachCountsStep(c: Config, q: nat, base: Image, m: seq<nat>, k: nat, p: State, n: seq<nat>)
    returns (s: State)
    requires Plain(c, q) && |m| == q && 1 <= k <= q && m[k - 1] <= c.maxOp
    requires Sum(m) <= c.layout.capacity && Sum(m) <= c.layout.size - 1
    requires n == m[..k - 1] + Zeros(q - (k - 1))
    requires Reachable(c, base, p) && Filling(c, p, n) && |p.lh| == Sum(m[..k - 1])
    ensures Reachable(c, base, s) && Filling(c, s, m[..k] + Zeros(q - k)) && |s.lh| == Sum(m[..k])
  {
    PrefixStep(m, k);
    s := ReachMore(c, q, base, p, n, k - 1, m[k - 1]);
  }

  /** Any way m of sharing out log entries among q operations can be reached. */
  lemma {:induction false} ReachCounts(c: Config, q: nat, base: Image, m: seq<nat>, k: nat) returns (s: State)
    requires Plain(c, q) && Formatted(c.layout, base) && Entries(base[c.layout.start]) == []
    requires |m| == q && k <= q && forall i :: 0 <= i < q ==> m[i] <= c.maxOp
    requires Sum(m) <= c.layout.capacity && Sum(m) <= c.layout.size - 1
    ensures Reachable(c, base, s) && Filling(c, s, m[..k] + Zeros(q - k)) && |s.lh| == Sum(m[..k])
  {
    if k == 0 {
      s := ReachBegun(c, q, base, q);
      assert m[..0] + Zeros(q) == Zeros(q);
    } else {
      var p := ReachCounts(c, q, base, m, k - 1);
      s := ReachCountsStep(c, q, base, m, k, p, m[..k - 1] + Zeros(q - (k - 1)));
    }
  }

  lemma ReachAllCounts(c: Config, q: nat, base: Image, m: seq<nat>) returns (s: State)
    requires Plain(c, q) && Formatted(c.layout, base) && Entries(base[c.layout.start]) == []
    requires |m| == q && forall i :: 0 <= i < q ==> m[i] <= c.maxOp
    requires Sum(m) <= c.layout.capacity && Sum(m) <= c.layout.size - 1
    ensures Reachable(c, base, s) && Filling(c, s, m) && |s.lh| == Sum(m)
  {
    s := ReachCounts(c, q, base, m, q);
    assert m[..q] + Zeros(0) == m == m[..q];
  }

  /** q equal shares. */
  function Full(q: nat, max: nat): (r: seq<nat>)
    ensures |r| == q && forall i :: 0 <= i < q ==> r[i] == max
  {
    if q == 0 then [] else Full(q - 1, max) + [max]
  }

  lemma {:induction false} SumFull(q: nat, max: nat)
    ensures Sum(Full(q, max)) == Times(q, max)
  {
    if q > 0 {
      SumFull(q - 1, max);
      assert Full(q, max)[..q - 1] == Full(q - 1, max);
    }
  }

  /** Even with a roomy log region, the log can be completely full while operations are in progress:
      log_write then panics although the block is already logged and nothing would be added. */
  lemma AbsorbingWriteCanPanic(c: Config, q: nat, base: Image) returns (s: State)
    requires Plain(c, q) && q >= 1 && c.Roomy()
    requires Formatted(c.layout, base) && Entries(base[c.layout.start]) == []
    ensures Reachable(c, base, s)
    ensures 0 in s.active && !s.active[0].inLogWrite
    ensures |s.lh| > 0 && c.layout.Home(s.lh[0]) && TooBig(c, s)
  {
    SumFull(q, c.maxOp);
    TimesMonotone(1, q, c.maxOp);
    assert Times(1, c.maxOp) == c.maxOp;
    s := ReachAllCounts(c, q, base, Full(q, c.maxOp));
  }

  /** total entries shared among q operations, the first two keeping one entry in reserve each. */
  function Spread(q: nat, max: nat, total: nat): (r: seq<nat>)
    requires max >= 1
    ensures |r| == q
    ensures forall i :: 0 <= i < q ==> r[i] <= if i < 2 then max - 1 else max
  {
    if q == 0 then []
    else
      var most := if q <= 2 then max - 1 else max;
      var mine := if total < most then total else most;
      Spread(q - 1, max, total - mine) + [mine]
  }

  lemma {:induction false} SumSpread(q: nat, max: nat, total: nat)
    requires max >= 1 && total + (if q < 2 then q else 2) <= Times(q, max)
    ensures Sum(Spread(q, max, total)) == total
  {
    if q > 0 {
      var most := if q <= 2 then max - 1 else max;
      var mine := if total < most then total else most;
      hide Sum;
      SumSpread(q - 1, max, total - mine);
      SumSnoc(Spread(q - 1, max, total - mine), mine);
    }
  }

  lemma SumSnoc(m: seq<nat>, x: nat)
    ensures Sum(m + [x]) == Sum(m) + x
  {
    assert (m + [x])[..|m|] == m;
  }

  /** Two operations that are both past the size test when one entry is left each add one. */
  lemma ReachOverrun(c: Config, q: nat, base: Image, p: State, n: seq<nat>) returns (s: State)
    requires Plain(c, q) && Reachable(c, base, p) && Filling(c, p, n)
    requires |n| >= 2 && n[0] < c.maxOp && n[1] < c.maxOp
    requires |p.lh| == c.layout.size - 2 && c.layout.size <= c.layout.capacity
    ensures Reachable(c, base, s) && |s.lh| == c.layout.size
  {
    ReachNext(c, base, p, TestSpace(0));
    var p0 := Do(c, p, TestSpace(0));
    ReachNext(c, base, p0, TestSpace(1));
    var p1 := Do(c, p0, TestSpace(1));
    var p2 := RecordNext(c, q, base, p1, 0);
    s := RecordNext(c, q, base, p2, 1);
  }

  /** With a log region of LOGSIZE blocks or fewer, as mkfs makes it, the unlocked size test does not
      keep the log inside its region: log entry number log.size - 1 has no block there, and
      write_log would put it over the block after the region. */
  lemma SmallRegionOverruns(c: Config, q: nat, base: Image) returns (s: State)
    requires Plain(c, q) && q >= 2 && 2 <= c.layout.size <= c.layout.capacity
    requires Formatted(c.layout, base) && Entries(base[c.layout.start]) == []
    ensures Reachable(c, base, s)
    ensures !c.layout.Fits(s.lh) && c.layout.Home(c.layout.start + 1 + (|s.lh| - 1))
  {
    hide Reachable, Filling, Formatted, Sum, Spread;
    var m := Spread(q, c.maxOp, c.layout.size - 2);
    SumSpread(q, c.maxOp, c.layout.size - 2);
    var p := ReachAllCounts(c, q, base, m);
    s := ReachOverrun(c, q, base, p, m);
  }

  /** The log stays inside its region in every run if and only if the region has room for a header
      besides LOGSIZE blocks. */
  lemma RegionSafeIffRoomy(c: Config, q: nat, base: Image)
    requires Plain(c, q) && q >= 2 && 2 <= c.layout.size
    requires Formatted(c.layout, base) && Entries(base[c.layout.start]) == []
    ensures (forall s :: Reachable(c, base, s) ==> c.layout.Fits(s.lh)) <==> c.Roomy()
  {
    if c.Roomy() {
      forall s | Reachable(c, base, s)
        ensures c.layout.Fits(s.lh)
      {
        var ss :| Run(c, base, ss) && ss[|ss| - 1] == s;
        RoomyFits(c, base, ss);
      }
    } else {
      var s := SmallRegionOverruns(c, q, base);
    }
  }

  /** In such a region an operation that has log entries left to use can be refused one. */
  lemma SmallRegionRefuses(c: Config, q: nat, base: Image) returns (s: State)
    requires Plain(c, q) && q >= 2 && 2 <= c.layout.size <= c.layout.capacity
    requires Formatted(c.layout, base) && Entries(base[c.layout.start]) == []
    ensures Reachable(c, base, s) && TooBig(c, s) && 1 in s.active && s.active[1].appended < c.maxOp
  {
    hide Reachable, Formatted, Sum, Spread;
    var m := Spread(q, c.maxOp, c.layout.size - 2);
    SumSpread(q, c.maxOp, c.layout.size - 2);
    var p := ReachAllCounts(c, q, base, m);
    s := ReachOneMore(c, q, base, p, m, 0);
    FillingAt(c, s, m[0 := m[0] + 1], 1);
  }

  lemma FillingAt(c: Config, s: State, n: seq<nat>, o: nat)
    requires Filling(c, s, n) && o < |n|
    ensures o in s.active && s.active[o].appended == n[o]
  {
  }

  /** Operations are granted the entries reserved for them in every run if and only if the region is roomy. */
  lemma AppendSafeIffRoomy(c: Config, q: nat, base: Image)
    requires Plain(c, q) && q >= 2 && 2 <= c.layout.size
    requires Formatted(c.layout, base) && Entries(base[c.layout.start]) == []
    ensures (forall s, o :: Reachable(c, base, s) && o in s.active && s.active[o].appended < c.maxOp ==> !TooBig(c, s))
            <==> c.Roomy()
  {
    if c.Roomy() {
      forall s, o | Reachable(c, base, s) && o in s.active && s.active[o].appended < c.maxOp
        ensures !TooBig(c, s)
      {
        var ss :| Run(c, base, ss) && ss[|ss| - 1] == s;
        AppendNeverTooBig(c, base, ss, o);
      }
    } else {
      var s := SmallRegionRefuses(c, q, base);
    }
  }
}
