/**
 What end_op of kernel/log.c promises: when no system call is in progress and no commit is running, every update of
 every operation that has ended is on disk for good.  Updates and operations are those of the steps taken, not of the
 history that the states keep.
 */
module Durability {
  import opened LogFormat
  import opened Transactions

  // ----- nothing is left over

  /** The log in memory lists nothing, and holds back no update, unless an operation is in progress or a commit runs. */
  ghost predicate Settled(s: State) {
    && (s.lh == [] ==> s.current == [])
    && (s.phase.Installing? || s.phase.Reinstalling? || s.phase == Booting || s.phase == Finishing ==> s.current == [])
    && (s.phase == Finishing ==> s.lh == [])
    && (s.phase == Running && s.active == map[] ==> s.lh == [])
  }

  lemma StepSettled(c: Config, s: State, t: Step)
    requires ControlInv(c, s) && Settled(s) && Sound(c, s) && Enabled(c, s, t)
    ensures Settled(Do(c, s, t))
  {
    hide Readable, Unspent;
    if t.EndOp? {
      EndSettled(c, s, t.o);
    }
  }

  lemma EndSettled(c: Config, s: State, o: nat)
    requires ControlInv(c, s) && Settled(s) && o in s.active
    ensures Settled(DoEnd(s, o))
  {
    var s' := DoEnd(s, o);
    assert s'.active.Keys == s.active.Keys - {o};
    assert |s'.active| == |s.active| - 1;
  }

  // ----- what the steps say

  /** ts are the steps of the run ss. */
  ghost predicate Trace(c: Config, base: Image, ss: seq<State>, ts: seq<Step>) {
    && |ss| == |ts| + 1 && Init(c, base, ss[0])
    && forall i :: 0 <= i < |ts| ==> Takes(c, ss[i], ts[i], ss[i + 1])
  }

  ghost predicate Takes(c: Config, s: State, t: Step, s': State) {
    Sound(c, s) && Enabled(c, s, t) && s' == Do(c, s, t)
  }

  /** The updates that operation o makes in ts. */
  function Updates(ts: seq<Step>, o: nat): seq<Write> {
    if ts == [] then []
    else
      var t := ts[|ts| - 1];
      Updates(ts[..|ts| - 1], o) + if t.Record? && t.o == o then [Write(o, t.b, t.data)] else []
  }

  /** Operation o ends in ts. */
  predicate Ends(ts: seq<Step>, o: nat) { EndOp(o) in ts }

  lemma TraceStep(c: Config, base: Image, ss: seq<State>, ts: seq<Step>, i: int)
    requires Trace(c, base, ss, ts) && 0 <= i < |ts|
    ensures Takes(c, ss[i], ts[i], ss[i + 1])
    ensures Sound(c, ss[i]) && Enabled(c, ss[i], ts[i]) && ss[i + 1] == Do(c, ss[i], ts[i])
  {
    hide Sound, Enabled, Do, Init;
    assert Takes(c, ss[i], ts[i], ss[i + 1]);
  }

  lemma TraceShorter(c: Config, base: Image, ss: seq<State>, ts: seq<Step>, n: int)
    requires Trace(c, base, ss, ts) && 0 <= n <= |ts|
    ensures Trace(c, base, ss[..n + 1], ts[..n])
  {
    hide Takes;
    forall i | 0 <= i < n ensures Takes(c, ss[..n + 1][i], ts[..n][i], ss[..n + 1][i + 1]) {
      TraceStep(c, base, ss, ts, i);
    }
  }

  lemma TraceIsRun(c: Config, base: Image, ss: seq<State>, ts: seq<Step>)
    requires Trace(c, base, ss, ts)
    ensures Run(c, base, ss)
  {
    hide Sound, Enabled, Do;
    forall i | 0 <= i < |ss| - 1 ensures Next(c, ss[i], ss[i + 1]) {
      TraceStep(c, base, ss, ts, i);
    }
  }

  /** The history that a state keeps is what the steps say. */
  ghost predicate Agrees(s: State, ts: seq<Step>) {
    && (forall o: nat :: o in s.written <==> o < s.nextOp)
    && (forall o: nat :: Updates(ts, o) == if o in s.written then s.written[o] else [])
    && (forall o: nat :: o in s.ended <==> Ends(ts, o))
  }

  lemma UpdatesMore(ts: seq<Step>, t: Step, o: nat)
    ensures Updates(ts + [t], o) == Updates(ts, o) + if t.Record? && t.o == o then [Write(o, t.b, t.data)] else []
    ensures Ends(ts + [t], o) <==> Ends(ts, o) || t == EndOp(o)
  {
    assert (ts + [t])[..|ts|] == ts;
  }

  lemma StepAgrees(c: Config, s: State, ts: seq<Step>, t: Step)
    requires Agrees(s, ts) && HistoryInv(s) && Sound(c, s) && Enabled(c, s, t)
    ensures Agrees(Do(c, s, t), ts + [t])
  {
    hide Updates, Ends, WritesInv, Readable;
    var s' := Do(c, s, t);
    forall o: nat
      ensures o in s'.written <==> o < s'.nextOp
      ensures Updates(ts + [t], o) == if o in s'.written then s'.written[o] else []
      ensures o in s'.ended <==> Ends(ts + [t], o)
    {
      UpdatesMore(ts, t, o);
      if t.Record? || t.BeginOp? || t.EndOp? {
        OpAgrees(c, s, ts, t, o);
      } else {
        hide Agrees, PlaceInv;
        SameBooks(c, s, t);
        AgreesAt(s, ts, o);
      }
    }
  }

  lemma AgreesAt(s: State, ts: seq<Step>, o: nat)
    requires Agrees(s, ts)
    ensures o in s.written <==> o < s.nextOp
    ensures Updates(ts, o) == if o in s.written then s.written[o] else []
    ensures o in s.ended <==> Ends(ts, o)
  {
  }

  lemma SameBooks(c: Config, s: State, t: Step)
    requires Sound(c, s) && Enabled(c, s, t) && !t.Record? && !t.BeginOp? && !t.EndOp?
    ensures var s' := Do(c, s, t); s'.written == s.written && s'.ended == s.ended && s'.nextOp == s.nextOp
  {
  }

  lemma OpAgrees(c: Config, s: State, ts: seq<Step>, t: Step, o: nat)
    requires Agrees(s, ts) && HistoryInv(s) && Sound(c, s) && Enabled(c, s, t) && (t.Record? || t.BeginOp? || t.EndOp?)
    requires Updates(ts + [t], o) == Updates(ts, o) + if t.Record? && t.o == o then [Write(o, t.b, t.data)] else []
    requires Ends(ts + [t], o) <==> Ends(ts, o) || t == EndOp(o)
    ensures var s' := Do(c, s, t);
            && (o in s'.written <==> o < s'.nextOp)
            && Updates(ts + [t], o) == (if o in s'.written then s'.written[o] else [])
            && (o in s'.ended <==> Ends(ts + [t], o))
  {
    hide Updates, Ends, WritesInv, Readable, Times;
    AgreesAt(s, ts, o);
    hide Agrees;
    if t.Record? {
      assert t.o in s.place;
    }
  }

  lemma TraceLength(c: Config, base: Image, ss: seq<State>, ts: seq<Step>)
    requires Trace(c, base, ss, ts)
    ensures |ss| == |ts| + 1
  {
  }

  lemma AgreesAtBoot(c: Config, base: Image, ss: seq<State>, ts: seq<Step>)
    requires Trace(c, base, ss, ts) && ts == []
    ensures Agrees(ss[0], ts) && Settled(ss[0])
  {
    hide Takes;
  }

  lemma {:induction false} TraceAgrees(c: Config, base: Image, ss: seq<State>, ts: seq<Step>)
    requires Trace(c, base, ss, ts)
    ensures var s := ss[|ts|]; Agrees(s, ts) && Settled(s) && ControlInv(c, s) && HistoryInv(s)
  {
    hide *;
    TraceLength(c, base, ss, ts);
    TraceIsRun(c, base, ss, ts);
    RunBooks(c, base, ss);
    var n := |ts| - 1;
    if n == -1 {
      AgreesAtBoot(c, base, ss, ts);
    } else {
      TraceShorter(c, base, ss, ts, n);
      TraceAgrees(c, base, ss[..n + 1], ts[..n]);
      TraceStep(c, base, ss, ts, n);
      assert ts[..n] + [ts[n]] == ts;
      StepAgrees(c, ss[n], ts[..n], ts[n]);
      StepSettled(c, ss[n], ts[n]);
    }
  }

  /** In every run: with no operation in progress and no commit or recovery running, the log is empty and no update is
      held back in memory only. */
  lemma AtRestNothingPending(c: Config, base: Image, ss: seq<State>, ts: seq<Step>)
    requires Trace(c, base, ss, ts) && ss[|ts|].phase == Running && ss[|ts|].active == map[]
    ensures ss[|ts|].lh == [] && ss[|ts|].current == []
  {
    TraceAgrees(c, base, ss, ts);
  }

  lemma {:induction false} TimesIs(n: nat, max: nat)
    ensures Times(n, max) == n * max
  {
    if n > 0 {
      TimesIs(n - 1, max);
      assert (n - 1) * max + max == n * max;
    }
  }

  /** In every run begin_op lets an operation in if and only if no commit or recovery is running and the log has room
      for what it lists and MAXOPBLOCKS blocks of every operation in progress and the new one; with none in progress,
      always. */
  lemma BeginIff(c: Config, base: Image, ss: seq<State>, ts: seq<Step>)
    requires Trace(c, base, ss, ts)
    ensures var s := ss[|ts|];
            && (Enabled(c, s, BeginOp) <==>
                  s.phase == Running && |s.lh| + (|s.active| + 1) * c.maxOp <= c.layout.capacity)
            && (s.phase == Running && s.active == map[] && c.maxOp <= c.layout.capacity ==> Enabled(c, s, BeginOp))
  {
    TraceAgrees(c, base, ss, ts);
    TimesIs(|ss[|ts|].active| + 1, c.maxOp);
  }

  // ----- committed for good

  /** Operation o has ended and was not lost in a crash. */
  ghost predicate Pending(s: State, o: nat) {
    o in s.ended && o in s.place && 0 <= s.place[o] <= |s.txs|
  }

  /** Its transaction is committed. */
  ghost predicate Stored(s: State, o: nat) {
    o in s.ended && o in s.place && 0 <= s.place[o] < |s.txs|
  }

  lemma PendingStays(c: Config, s: State, t: Step, o: nat)
    requires Pending(s, o) && HistoryInv(s) && Sound(c, s) && Enabled(c, s, t) && t != Crash
    ensures Pending(Do(c, s, t), o)
  {
    hide WritesInv, Readable;
  }

  lemma StoredStays(c: Config, s: State, t: Step, o: nat)
    requires Stored(s, o) && HistoryInv(s) && Sound(c, s) && Enabled(c, s, t)
    ensures Stored(Do(c, s, t), o)
  {
    hide WritesInv, Readable;
  }

  lemma TraceBooks(c: Config, base: Image, ss: seq<State>, ts: seq<Step>, i: int)
    requires Trace(c, base, ss, ts) && 0 <= i < |ts|
    ensures |ss| == |ts| + 1 && HistoryInv(ss[i]) && Takes(c, ss[i], ts[i], ss[i + 1])
  {
    hide Takes, HistoryInv, ControlInv, Agrees, Settled;
    TraceStep(c, base, ss, ts, i);
    TraceShorter(c, base, ss, ts, i);
    TraceAgrees(c, base, ss[..i + 1], ts[..i]);
  }

  lemma {:induction false} PendingUntil(c: Config, base: Image, ss: seq<State>, ts: seq<Step>, e: int, i: int, o: nat)
    requires Trace(c, base, ss, ts) && |ss| == |ts| + 1 && 0 <= e < i <= |ts| && ts[e] == EndOp(o)
    requires forall k :: e <= k < i ==> ts[k] != Crash
    ensures Pending(ss[i], o)
    decreases i
  {
    hide Sound, Enabled, Do, Pending, HistoryInv, Trace;
    TraceBooks(c, base, ss, ts, i - 1);
    if i == e + 1 {
      EndsPending(c, ss[e], o);
    } else {
      PendingUntil(c, base, ss, ts, e, i - 1, o);
      PendingStays(c, ss[i - 1], ts[i - 1], o);
    }
  }

  lemma EndsPending(c: Config, s: State, o: nat)
    requires HistoryInv(s) && Sound(c, s) && Enabled(c, s, EndOp(o))
    ensures Pending(Do(c, s, EndOp(o)), o)
  {
    hide WritesInv, Readable;
  }

  lemma {:induction false} StoredForGood(c: Config, base: Image, ss: seq<State>, ts: seq<Step>, i: int, k: int, o: nat)
    requires Trace(c, base, ss, ts) && |ss| == |ts| + 1 && 0 <= i <= k <= |ts| && Stored(ss[i], o)
    ensures Stored(ss[k], o)
    decreases k
  {
    hide Sound, Enabled, Do, Stored, HistoryInv, Trace;
    if i < k {
      StoredForGood(c, base, ss, ts, i, k - 1, o);
      TraceBooks(c, base, ss, ts, k - 1);
      StoredStays(c, ss[k - 1], ts[k - 1], o);
    }
  }

  /** At rest, what has ended and is not lost is committed, or made no update. */
  lemma RestStored(s: State, ts: seq<Step>, o: nat)
    requires Agrees(s, ts) && Settled(s) && HistoryInv(s) && s.phase == Running && s.active == map[] && Pending(s, o)
    ensures Stored(s, o) || Updates(ts, o) == []
  {
  }

  lemma EndedStays(c: Config, s: State, t: Step, o: nat)
    requires HistoryInv(s) && Sound(c, s) && Enabled(c, s, t) && o in s.ended
    ensures o in Do(c, s, t).ended && !(t.Record? && t.o == o)
  {
    hide WritesInv, Readable;
  }

  /** An update of an operation that has ended does not come later. */
  lemma {:induction false} NoneLater(c: Config, base: Image, ss: seq<State>, ts: seq<Step>, i: int, k: int, o: nat)
    requires Trace(c, base, ss, ts) && |ss| == |ts| + 1 && 0 <= i <= k <= |ts| && o in ss[i].ended
    ensures Updates(ts[..k], o) == Updates(ts[..i], o) && o in ss[k].ended
    decreases k
  {
    hide Updates, Sound, Do, Enabled, HistoryInv, Trace;
    if i < k {
      NoneLater(c, base, ss, ts, i, k - 1, o);
      TraceBooks(c, base, ss, ts, k - 1);
      EndedStays(c, ss[k - 1], ts[k - 1], o);
      assert ts[..k - 1] + [ts[k - 1]] == ts[..k];
      UpdatesMore(ts[..k - 1], ts[k - 1], o);
    }
  }

  /** In every run whose log stays inside its region: once operation o has ended, at step e, and the system has been at
      rest at some later point i before any crash, all the updates it made, in order, are in one committed transaction
      and in no other, at every later point, whatever crashes follow; and recovery yields the committed transactions. */
  lemma Durable(c: Config, base: Image, ss: seq<State>, ts: seq<Step>, e: int, i: int, o: nat) returns (j: int)
    requires Trace(c, base, ss, ts) && AllFit(c, ss)
    requires 0 <= e < i <= |ts| && ts[e] == EndOp(o) && Crash !in ts[e..i]
    requires ss[i].phase == Running && ss[i].active == map[] && Updates(ts, o) != []
    ensures var s := ss[|ts|];
            && 0 <= j < |s.txs| && By(s.txs[j], o) == Updates(ts, o)
            && (forall k :: 0 <= k < |s.txs| && k != j ==> By(s.txs[k], o) == [])
            && Formatted(c.layout, s.disk)
            && HomeOf(c.layout, Recovered(c.layout, s.disk)) == HomeOf(c.layout, ApplyAll(base, s.txs))
  {
    TraceIsRun(c, base, ss, ts);
    CrashYieldsCommitted(c, base, ss);
    hide *;
    EndedStored(c, base, ss, ts, e, i, o);
    j := WhereStored(c, base, ss, ts, o);
  }

  lemma EndedStored(c: Config, base: Image, ss: seq<State>, ts: seq<Step>, e: int, i: int, o: nat)
    requires Trace(c, base, ss, ts) && 0 <= e < i <= |ts| && ts[e] == EndOp(o) && Crash !in ts[e..i]
    requires |ss| == |ts| + 1 && ss[i].phase == Running && ss[i].active == map[] && Updates(ts, o) != []
    ensures Stored(ss[|ts|], o)
  {
    hide Trace, ControlInv, HistoryInv, Agrees, Settled, Updates;
    assert forall k :: e <= k < i ==> ts[k] == ts[e..i][k - e];
    PendingUntil(c, base, ss, ts, e, i, o);
    TraceShorter(c, base, ss, ts, i);
    TraceAgrees(c, base, ss[..i + 1], ts[..i]);
    RestStored(ss[i], ts[..i], o);
    NoneLater(c, base, ss, ts, i, |ts|, o);
    assert ts[..|ts|] == ts;
    StoredForGood(c, base, ss, ts, i, |ts|, o);
  }

  lemma WhereStored(c: Config, base: Image, ss: seq<State>, ts: seq<Step>, o: nat) returns (j: int)
    requires Trace(c, base, ss, ts) && |ss| == |ts| + 1 && Stored(ss[|ts|], o)
    ensures var s := ss[|ts|];
            && 0 <= j < |s.txs| && By(s.txs[j], o) == Updates(ts, o)
            && (forall k :: 0 <= k < |s.txs| && k != j ==> By(s.txs[k], o) == [])
  {
    hide Trace, ControlInv, Agrees, Settled, Updates;
    var s := ss[|ts|];
    TraceAgrees(c, base, ss, ts);
    AgreesAt(s, ts, o);
    j := s.place[o];
    forall k | 0 <= k < |s.txs| && k != j ensures By(s.txs[k], o) == [] {
      assert Placed(s.place, s.txs[k], k);
      ByNone(s.txs[k], o);
    }
  }

  // ----- commit and recovery come to an end

  ghost predicate AllFit(c: Config, ss: seq<State>) {
    forall k :: 0 <= k < |ss| ==> c.layout.Fits(ss[k].lh)
  }

  /** What commit or recovery does next. */
  function Onward(s: State): Step
    requires s.phase != Running
  {
    match s.phase
    case WritingLog(i) => if i < |s.lh| then LogBlock else WriteHead
    case Installing(i) => if i < |s.lh| then InstallBlock else Erase
    case Reinstalling(i) => if i < |s.lh| then InstallBlock else Erase
    case Finishing => FinishCommit
    case _ => ReadHead
  }

  /** How far it is from its end. */
  function Level(s: State): nat {
    match s.phase
    case Booting => 4
    case WritingLog(_) => 3
    case Installing(_) => 2
    case Reinstalling(_) => 2
    case Finishing => 1
    case Running => 0
  }

  function Left(s: State): nat {
    match s.phase
    case WritingLog(i) => if i < |s.lh| then |s.lh| - i else 0
    case Installing(i) => if i < |s.lh| then |s.lh| - i else 0
    case Reinstalling(i) => if i < |s.lh| then |s.lh| - i else 0
    case _ => 0
  }

  lemma CanGoOn(c: Config, base: Image, s: State)
    requires Inv(c, base, s) && s.phase != Running
    ensures Sound(c, s) && Enabled(c, s, Onward(s))
  {
    hide ControlInv, HistoryInv, HomeAgrees, CacheHolds, LogHolds, AllBlocks;
  }

  lemma GoesOn(c: Config, s: State)
    requires s.phase != Running && Sound(c, s) && Enabled(c, s, Onward(s)) && Shape(c, s)
    ensures var s' := Do(c, s, Onward(s));
            && (Level(s') < Level(s) || (Level(s') == Level(s) && Left(s') < Left(s)))
            && c.layout.Fits(s'.lh) && s'.active == s.active
  {
    ShapeFits(c, s);
    hide Shape, Readable, Entries, WithEntries, DoBegin, DoTest, DoRecord, DoEnd, DoCrash, DoLoad, DoEvict, Times;
  }

  lemma ShapeFits(c: Config, s: State)
    requires Shape(c, s)
    ensures Readable(c.layout, s.disk) && c.layout.Fits(s.lh) && c.layout.Fits([])
    ensures c.layout.Fits(Entries(s.disk[c.layout.start]))
  {
  }

  lemma ShapeNow(c: Config, base: Image, ss: seq<State>, ts: seq<Step>)
    requires Trace(c, base, ss, ts) && AllFit(c, ss) && ss[|ts|].phase != Running
    ensures var s := ss[|ts|]; Shape(c, s) && Sound(c, s) && Enabled(c, s, Onward(s))
  {
    hide Shape, Sound, Enabled, Onward, ControlInv, HistoryInv;
    TraceIsRun(c, base, ss, ts);
    RunInv(c, base, ss);
    CanGoOn(c, base, ss[|ts|]);
  }

  lemma NotCrash(s: State)
    requires s.phase != Running
    ensures Onward(s) != Crash
  {
  }

  /** From every state of a run whose log stays inside its region, a commit or a recovery that is running can be carried
      on to its end, one step after another. */
  lemma {:induction false} Completes(c: Config, base: Image, ss: seq<State>, ts: seq<Step>)
    returns (ss': seq<State>, ts': seq<Step>)
    requires Trace(c, base, ss, ts) && AllFit(c, ss)
    ensures Trace(c, base, ss', ts') && AllFit(c, ss') && ts <= ts' && ss <= ss' && Crash !in ts'[|ts|..]
    ensures ss'[|ts'|].phase == Running && ss'[|ts'|].active == ss[|ts|].active
    decreases Level(ss[|ts|]), Left(ss[|ts|])
  {
    hide *;
    TraceLength(c, base, ss, ts);
    ss', ts' := ss, ts;
    var s := ss[|ts|];
    if s.phase != Running {
      ShapeNow(c, base, ss, ts);
      GoesOn(c, s);
      var t, s1 := Onward(s), Do(c, s, Onward(s));
      Extended(c, base, ss, ts, t, s1);
      NotCrash(s);
      ss', ts' := Completes(c, base, ss + [s1], ts + [t]);
      assert ts'[|ts|..] == [t] + ts'[|ts + [t]|..];
    }
  }

  lemma Extended(c: Config, base: Image, ss: seq<State>, ts: seq<Step>, t: Step, s': State)
    requires Trace(c, base, ss, ts) && AllFit(c, ss) && c.layout.Fits(s'.lh)
    requires Sound(c, ss[|ts|]) && Enabled(c, ss[|ts|], t) && s' == Do(c, ss[|ts|], t)
    ensures Trace(c, base, ss + [s'], ts + [t]) && AllFit(c, ss + [s'])
  {
    hide Sound, Enabled, Do, Init;
    var ss1, ts1 := ss + [s'], ts + [t];
    forall i | 0 <= i < |ts1| ensures Takes(c, ss1[i], ts1[i], ss1[i + 1]) {
      if i < |ts| {
        TraceStep(c, base, ss, ts, i);
      }
    }
  }
}
