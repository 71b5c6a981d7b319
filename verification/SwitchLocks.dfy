/**
 * Which process locks a CPU holds (kernel/proc.c): none that it does not account for, so that a process that calls
 * swtch in sched holds its own lock and no other, which sched's test of noff asks for.
 */
module SwitchLocks {
  import opened Scheduling

  /** CPU c holds the lock of process j for a reason. */
  ghost predicate Holder(s: State, c: int, j: int) {
    && 0 <= c < |s.cpus|
    && if s.cpus[c].run == -1 then s.cpus[c].sched == Have(j) || s.cpus[c].sched == Back(j)
       else
         && 0 <= s.cpus[c].run < |s.procs|
         && var pc := s.procs[s.cpus[c].run].pc; (s.cpus[c].run == j && HoldsOwn(pc)) || Held(pc) == j
  }

  ghost predicate Accounted(s: State, j: int)
    requires 0 <= j < |s.plock|
  {
    s.plock[j] == -1 || Holder(s, s.plock[j], j)
  }

  ghost predicate AllAccounted(s: State) {
    forall j :: 0 <= j < |s.plock| ==> Accounted(s, j)
  }

  lemma SchedulerKeeps(s: State, c: int, t: Turn, j: int)
    requires Inv(s) && Enabled(s, c, t) && !t.Go? && 0 <= j < |s.plock| && Accounted(s, j)
    ensures |Do(s, c, t).plock| == |s.plock| && Accounted(Do(s, c, t), j)
  {
    assert CInv(s, c);
    if t.SwitchTo? {
      var p := s.cpus[c].sched.p;
      assert PInv(s, p);
      if 0 <= s.plock[j] < |s.cpus| {
        assert CInv(s, s.plock[j]);
      }
    }
    hide Inv;
  }

  /** A lock held elsewhere. */
  lemma ElsewhereKept(s: State, s': State, c: int, j: int)
    requires 0 <= j < |s.plock| == |s'.plock| && Accounted(s, j) && s'.plock[j] == s.plock[j] != c
    requires |s'.cpus| == |s.cpus| && |s'.procs| == |s.procs|
    requires forall d :: 0 <= d < |s.cpus| && d != c ==>
               s'.cpus[d] == s.cpus[d]
                 && (0 <= s.cpus[d].run < |s.procs| ==> s'.procs[s.cpus[d].run].pc == s.procs[s.cpus[d].run].pc)
    ensures Accounted(s', j)
  {
  }

  /** p is run by no CPU but c. */
  lemma NotElsewhere(s: State, c: int, p: int, d: int)
    requires OnCpu(s, c, p) && 0 <= d < |s.cpus| && d != c
    ensures s.cpus[d].run != p
  {
    assert CInv(s, d) && CInv(s, c);
  }

  /** A turn by which only p's record changes. */
  lemma OwnKept(s: State, s': State, c: int, p: int, j: int)
    requires OnCpu(s, c, p) && |s.procs| == |s.plock| == |s'.plock| && 0 <= j < |s.plock| && Accounted(s, j)
    requires |s'.procs| == |s.procs| && forall q :: 0 <= q < |s.procs| && q != p ==> s'.procs[q].pc == s.procs[q].pc
    requires s'.cpus == s.cpus && (s'.plock[j] == s.plock[j] || s'.plock[j] == -1 || s'.plock[j] == c)
    requires s'.plock[j] == c ==> (j == p && HoldsOwn(s'.procs[p].pc)) || Held(s'.procs[p].pc) == j
    ensures Accounted(s', j)
  {
    hide Inv;
    if s'.plock[j] == s.plock[j] != c {
      forall d | 0 <= d < |s.cpus| && d != c ensures s.cpus[d].run != p {
        NotElsewhere(s, c, p, d);
      }
      ElsewhereKept(s, s', c, j);
    }
  }

  predicate Keeps(pc: Pc, pc': Pc) { (HoldsOwn(pc) ==> HoldsOwn(pc')) && (Held(pc) >= 0 ==> Held(pc') == Held(pc)) }

  lemma MovedHolds(s: State, p: int, k: Pc)
    requires 0 <= p < |s.procs| == |s.plock| && MayGo(s, p, k) && Moves(s.procs[p].pc, k)
    ensures Keeps(s.procs[p].pc, Moved(s.procs[p], k).pc)
  {
  }

  /** p's record becomes q, and no lock moves. */
  lemma PutKept(s: State, c: int, p: int, q: Proc, j: int)
    requires OnCpu(s, c, p) && |s.procs| == |s.plock| && 0 <= j < |s.plock| && Accounted(s, j)
    requires Keeps(s.procs[p].pc, q.pc)
    ensures Accounted(Put(s, p, q), j)
  {
    hide Inv;
    OwnKept(s, Put(s, p, q), c, p, j);
  }

  lemma FreeKept(s: State, c: int, p: int, k: Pc, j: int)
    requires OnCpu(s, c, p) && |s.procs| == |s.plock| && 0 <= j < |s.plock| && Accounted(s, j)
    requires Frees(s.procs[p].pc, k) && !Moves(s.procs[p].pc, k)
    ensures Accounted(FreeOwn(s, p, Freed(s.procs[p])), j)
  {
    hide Inv;
    OwnKept(s, FreeOwn(s, p, Freed(s.procs[p])), c, p, j);
  }

  lemma TakeKept(s: State, c: int, p: int, j: int)
    requires OnCpu(s, c, p) && |s.procs| == |s.plock| && 0 <= j < |s.plock| && Accounted(s, j) && Takes(s.procs[p].pc)
    ensures Accounted(TakeOwn(s, c, p, Taken(s.procs[p])), j)
  {
    hide Inv;
    OwnKept(s, TakeOwn(s, c, p, Taken(s.procs[p])), c, p, j);
  }

  lemma SwitchKept(s: State, c: int, p: int, j: int)
    requires OnCpu(s, c, p) && |s.procs| == |s.plock| && 0 <= j < |s.plock| && Accounted(s, j)
    requires Switches(s.procs[p].pc)
    ensures Accounted(SwitchOut(s, c, p, Out(s.procs[p].pc)), j)
  {
    hide Inv;
    var s' := SwitchOut(s, c, p, Out(s.procs[p].pc));
    if s.plock[j] != c {
      forall d | 0 <= d < |s.cpus| && d != c ensures s.cpus[d].run != p {
        NotElsewhere(s, c, p, d);
      }
      ElsewhereKept(s, s', c, j);
    }
  }

  /** A process that another CPU runs keeps its position when it is acted on. */
  lemma ActedElsewhere(s: State, c: int, p: int, d: int)
    requires OnCpu(s, c, p) && |s.procs| == |s.plock| && Acts(s.procs[p].pc) && 0 <= s.procs[p].pc.i < |s.procs|
    requires 0 <= d < |s.cpus| && s.cpus[d].run == s.procs[p].pc.i && s.procs[p].cpu == c
    requires PInv(s, s.procs[p].pc.i) && PInv(s, p) && CInv(s, d)
    ensures var i := s.procs[p].pc.i; Acted(s.procs[i], ActOf(s.procs[p].pc)).pc == s.procs[i].pc
  {
  }

  lemma ActKept(s: State, c: int, p: int, j: int)
    requires OnCpu(s, c, p) && |s.procs| == |s.plock| && 0 <= j < |s.plock| && Accounted(s, j) && Acts(s.procs[p].pc)
    requires 0 <= s.procs[p].pc.i < |s.procs|
    ensures Accounted(ActOn(s, p, s.procs[p].pc.i, ActOf(s.procs[p].pc), After(s.procs[p].pc)), j)
  {
    var i := s.procs[p].pc.i;
    var s' := ActOn(s, p, i, ActOf(s.procs[p].pc), After(s.procs[p].pc));
    OnCpuParts(s, c, p);
    assert PInv(s, i);
    if s.plock[j] != c && j != i {
      forall d | 0 <= d < |s.cpus| && d != c
        ensures s.cpus[d].run != p && (s.cpus[d].run == i ==> s'.procs[i].pc == s.procs[i].pc)
      {
        NotElsewhere(s, c, p, d);
        assert CInv(s, d);
        if s.cpus[d].run == i {
          ActedElsewhere(s, c, p, d);
        }
      }
      hide Inv, PInv, CInv;
      ElsewhereKept(s, s', c, j);
    }
  }

  lemma LockingKept(s: State, c: int, p: int, k: Pc, j: int)
    requires OnCpu(s, c, p) && |s.procs| == |s.plock| && 0 <= j < |s.plock| && Accounted(s, j) && MayGo(s, p, k)
    requires var pc := s.procs[p].pc;
             && !Moves(pc, k) && !Frees(pc, k) && !Takes(pc) && !Changes(pc) && !Switches(pc) && !Acts(pc)
    ensures |Locking(s, c, p).plock| == |s.plock| && Accounted(Locking(s, c, p), j)
  {
    hide Inv;
    OwnKept(s, Locking(s, c, p), c, p, j);
  }

  lemma ChangedHolds(q: Proc)
    requires Changes(q.pc)
    ensures Keeps(q.pc, Changed(q).pc)
  {
  }

  lemma GoneKept(s: State, c: int, p: int, k: Pc, j: int)
    requires OnCpu(s, c, p) && |s.procs| == |s.plock| && 0 <= j < |s.plock| && Accounted(s, j) && MayGo(s, p, k)
    ensures |Gone(s, c, p, k).plock| == |s.plock| && Accounted(Gone(s, c, p, k), j)
  {
    hide Inv, Accounted, MayGo, Moves, Changes, Frees, Takes, Switches, Acts, Locking, Moved, Changed, Keeps;
    var q := s.procs[p];
    if Moves(q.pc, k) {
      MovedHolds(s, p, k);
      PutKept(s, c, p, Moved(q, k), j);
    } else if Changes(q.pc) {
      ChangedHolds(q);
      PutKept(s, c, p, Changed(q), j);
    } else if Frees(q.pc, k) {
      FreeKept(s, c, p, k, j);
    } else if Takes(q.pc) {
      TakeKept(s, c, p, j);
    } else if Switches(q.pc) {
      SwitchKept(s, c, p, j);
    } else if Acts(q.pc) {
      ActsInside(s, p, k);
      ActKept(s, c, p, j);
    } else {
      LockingKept(s, c, p, k, j);
    }
  }

  lemma TurnKept(s: State, c: int, t: Turn, j: int)
    requires Inv(s) && Enabled(s, c, t) && 0 <= j < |s.plock| && Accounted(s, j)
    ensures |Do(s, c, t).plock| == |s.plock| && Accounted(Do(s, c, t), j)
  {
    hide Inv, Accounted, Gone, MayGo;
    match t {
      case Go(k) => GoneKept(s, c, s.cpus[c].run, k, j);
      case _ => SchedulerKeeps(s, c, t, j);
    }
  }

  lemma InterruptKept(s: State, p: int, ch: int, j: int)
    requires 0 <= p < |s.procs| == |s.plock| && 0 <= j < |s.plock| && Accounted(s, j)
    ensures Accounted(Put(s, p, Acted(s.procs[p], Wake(ch))), j)
  {
  }

  lemma StepAccounted(s: State, s': State)
    requires Inv(s) && AllAccounted(s) && Step(s, s')
    ensures AllAccounted(s')
  {
    hide Inv, Accounted, Enabled, Do;
    if Interrupted(s, s') {
      var p, ch :| 0 <= p < |s.procs| == |s.plock| && s.plock[p] == -1 && s' == Put(s, p, Acted(s.procs[p], Wake(ch)));
      forall j | 0 <= j < |s'.plock| ensures Accounted(s', j) {
        InterruptKept(s, p, ch, j);
      }
    } else {
      var c, t :| Enabled(s, c, t) && s' == Do(s, c, t);
      TurnSize(s, c, t);
      forall j | 0 <= j < |s'.plock| ensures Accounted(s', j) {
        TurnKept(s, c, t, j);
      }
    }
  }

  lemma TurnSize(s: State, c: int, t: Turn)
    requires Enabled(s, c, t)
    ensures |Do(s, c, t).plock| == |s.plock|
  {
    hide Moved, Changed, Freed, Taken, Out, ActOf, After, Acted;
  }

  lemma {:induction false} RunAccounted(ss: seq<State>)
    requires Run(ss)
    ensures Inv(ss[|ss| - 1]) && AllAccounted(ss[|ss| - 1])
  {
    hide Inv, Step, Init, Accounted;
    RunInv(ss);
    if |ss| == 1 {
      InitAccounted(ss[0]);
    } else {
      var n := |ss| - 1;
      forall i, j | 0 <= i && j == i + 1 && j < n ensures Step(ss[..n][i], ss[..n][j]) {
        assert Step(ss[i], ss[j]);
      }
      RunAccounted(ss[..n]);
      assert ss[..n][n - 1] == ss[n - 1];
      assert Step(ss[n - 1], ss[n]);
      StepAccounted(ss[n - 1], ss[n]);
    }
  }

  lemma InitAccounted(s: State)
    requires Init(s)
    ensures AllAccounted(s)
  {
  }

  /** In every run, a process about to swtch in sched, or just switched to, has a CPU that holds its lock and no other
      process's lock; at swtch it does not hold the sleep lock's spinlock either. */
  lemma OneLockHeld(ss: seq<State>, p: int, j: int)
    requires Run(ss)
    ensures var s := ss[|ss| - 1];
            0 <= p < |s.procs| == |s.plock| && (Switches(s.procs[p].pc) || SwitchedIn(s.procs[p].pc)) ==>
              && 0 <= s.plock[p] < |s.cpus| && s.cpus[s.plock[p]].run == p
              && (0 <= j < |s.plock| && s.plock[j] == s.plock[p] ==> j == p)
              && (Switches(s.procs[p].pc) ==> s.lk != s.plock[p])
  {
    var s := ss[|ss| - 1];
    HandOver(ss, p);
    RunAccounted(ss);
    hide Run, Inv;
    if 0 <= j < |s.plock| {
      assert Accounted(s, j);
    }
  }
}
