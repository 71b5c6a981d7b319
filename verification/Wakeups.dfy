/**
 * What makes a sleeping process runnable (kernel/proc.c): wakeup on the channel it sleeps on, and kill, and nothing
 * else, for every channel.
 */
module Wakeups {
  import opened Scheduling

  /** The running process of CPU c is about to wake process i up: wakeup on its channel, or kill. */
  ghost predicate Rouses(s: State, c: int, i: int)
    requires 0 <= i < |s.procs|
  {
    && 0 <= c < |s.cpus| && 0 <= s.cpus[c].run < |s.procs|
    && var pc := s.procs[s.cpus[c].run].pc;
       Acts(pc) && pc.i == i && (ActOf(pc) == Wake(s.procs[i].chan) || ActOf(pc) == Kill)
  }

  /** A sleeping process whose kernel thread is still on its CPU is about to switch. */
  lemma SleeperSwitches(s: State, c: int, p: int)
    requires OnCpu(s, c, p) && s.procs[p].state == SLEEPING
    ensures Switches(s.procs[p].pc) && !Acts(s.procs[p].pc)
  {
    OnCpuParts(s, c, p);
  }

  lemma ActsAlone(pc: Pc, k: Pc)
    requires Acts(pc)
    ensures !Changes(pc) && !Frees(pc, k) && !Takes(pc) && !Switches(pc) && (!Moves(pc, k) || k == Yield1(pc))
  {
  }

  /** A turn of p that is an act. */
  lemma ActTurn(s: State, c: int, p: int, k: Pc, i: int)
    requires OnCpu(s, c, p) && |s.procs| == |s.plock| && MayGo(s, p, k) && Acts(s.procs[p].pc) && s.procs[p].pc.i == i
    requires 0 <= i < |s.procs| && i != p
    ensures Gone(s, c, p, k).procs[i] == Acted(s.procs[i], ActOf(s.procs[p].pc))
  {
    ActsAlone(s.procs[p].pc, k);
  }

  /** In every run, the turn of a running process: a process that sleeps, on whatever channel, becomes runnable if and
      only if the turn is that of a wakeup on its channel that holds its lock, or of kill; it then keeps its channel and
      its place in sleep.  Otherwise nothing about it changes, but for the swtch of one about to leave its CPU. */
  lemma WokenIff(ss: seq<State>, s: State, s': State, c: int, k: Pc, i: int)
    requires |ss| > 0 && s == ss[|ss| - 1] && Enabled(s, c, Go(k)) && s' == Do(s, c, Go(k))
    requires 0 <= i < |s.procs| && s.procs[i].state == SLEEPING && Run(ss)
    ensures |s'.procs| == |s.procs| && (s'.procs[i].state == RUNNABLE <==> Rouses(s, c, i))
    ensures Rouses(s, c, i) ==> s'.procs[i] == s.procs[i].(state := RUNNABLE)
    ensures !Rouses(s, c, i) ==> s'.procs[i].state == SLEEPING && s'.procs[i].chan == s.procs[i].chan
    ensures !Rouses(s, c, i) && s.cpus[c].run != i ==> s'.procs[i] == s.procs[i]
  {
    RunInv(ss);
    hide Run, Inv;
    var p := s.cpus[c].run;
    OnCpuParts(s, c, p);
    TurnSize(s, c, p, k);
    if i == p {
      SleeperSwitches(s, c, p);
      SwitchTurn(s, c, p, k);
    } else {
      OtherState(s, c, p, k, i);
      if Acts(s.procs[p].pc) && s.procs[p].pc.i == i {
        ActTurn(s, c, p, k, i);
      }
    }
  }

  lemma TurnSize(s: State, c: int, p: int, k: Pc)
    requires 0 <= p < |s.procs| == |s.plock| && 0 <= c < |s.cpus| && MayGo(s, p, k)
    ensures |Gone(s, c, p, k).procs| == |s.procs|
  {
    hide Moved, Changed, Freed, Taken, Out, Acted, After, ActOf;
  }

  lemma SwitchTurn(s: State, c: int, p: int, k: Pc)
    requires OnCpu(s, c, p) && |s.procs| == |s.plock| && MayGo(s, p, k) && Switches(s.procs[p].pc)
    ensures |Gone(s, c, p, k).procs| == |s.procs|
    ensures Gone(s, c, p, k).procs[p].state == s.procs[p].state && Gone(s, c, p, k).procs[p].chan == s.procs[p].chan
  {
    hide Inv;
  }

  /** The other turns: a scheduler thread wakes nobody up and starts only a process that is runnable. */
  lemma SchedulerTurn(s: State, c: int, t: Turn, i: int)
    requires Enabled(s, c, t) && !t.Go? && 0 <= i < |s.procs|
    ensures var s' := Do(s, c, t);
            && |s'.procs| == |s.procs|
            && (s.procs[i].state != RUNNABLE ==> s'.procs[i] == s.procs[i])
            && (s'.procs[i] != s.procs[i] ==> s'.procs[i].state == RUNNING && s'.cpus[c].run == i)
  {
  }

  /** An interrupt handler's wakeup on channel ch that holds process p's lock. */
  lemma InterruptTurn(s: State, p: int, ch: int, i: int)
    requires 0 <= p < |s.procs| && 0 <= i < |s.procs|
    ensures var s' := Put(s, p, Acted(s.procs[p], Wake(ch)));
            if i == p && s.procs[i].state == SLEEPING && s.procs[i].chan == ch
              then s'.procs[i] == s.procs[i].(state := RUNNABLE)
              else s'.procs[i] == s.procs[i]
  {
  }

  /** The running process of CPU c is about to do a to process i. */
  ghost predicate Does(s: State, c: int, i: int, a: Act) {
    && 0 <= c < |s.cpus| && 0 <= s.cpus[c].run < |s.procs|
    && var pc := s.procs[s.cpus[c].run].pc; Acts(pc) && pc.i == i && ActOf(pc) == a
  }

  /** In every run, the turn of a running process: a zombie's slot becomes free if and only if the turn is that of wait
      with the slot's lock, and a free slot gets a new runnable process if and only if it is that of fork. */
  lemma FreedIff(ss: seq<State>, s: State, s': State, c: int, k: Pc, i: int)
    requires |ss| > 0 && s == ss[|ss| - 1] && Enabled(s, c, Go(k)) && s' == Do(s, c, Go(k))
    requires 0 <= i < |s.procs| && s.cpus[c].run != i && Run(ss)
    ensures |s'.procs| == |s.procs|
    ensures s.procs[i].state == ZOMBIE ==>
              s'.procs[i] == if Does(s, c, i, Reap) then NoProc() else s.procs[i]
    ensures s.procs[i].state == UNUSED ==>
              s'.procs[i] == if Does(s, c, i, Make) then NewProc() else s.procs[i]
    ensures s.procs[i].state == RUNNABLE || s.procs[i].state == RUNNING ==> s'.procs[i] == s.procs[i]
  {
    RunInv(ss);
    hide Run, Inv;
    var p := s.cpus[c].run;
    OnCpuParts(s, c, p);
    TurnSize(s, c, p, k);
    OtherState(s, c, p, k, i);
    if Acts(s.procs[p].pc) && s.procs[p].pc.i == i {
      ActTurn(s, c, p, k, i);
    }
  }

  lemma NapTurn(s: State, c: int, p: int, k: Pc)
    requires OnCpu(s, c, p) && |s.procs| == |s.plock| && MayGo(s, p, k) && s.procs[p].pc.Nap2?
    ensures var pc := s.procs[p].pc;
            Gone(s, c, p, k) == Put(s, p, Proc(SLEEPING, pc.ch, Nap3(pc.k, pc.own), s.procs[p].cpu))
  {
    hide Locking;
  }

  lemma NapOutTurn(s: State, c: int, p: int, k: Pc)
    requires OnCpu(s, c, p) && |s.procs| == |s.plock| && MayGo(s, p, k) && s.procs[p].pc.Nap3?
    ensures Gone(s, c, p, k) == SwitchOut(s, c, p, Napping(s.procs[p].pc.k, s.procs[p].pc.own))
  {
    hide Locking;
  }

  lemma NapEndTurn(s: State, c: int, p: int, k: Pc)
    requires OnCpu(s, c, p) && |s.procs| == |s.plock| && MayGo(s, p, k) && s.procs[p].pc.Nap4?
    ensures var q := s.procs[p];
            var h, s' := q.pc.k, Gone(s, c, p, k);
            if q.pc.own then s' == Put(s, p, q.(chan := 0, pc := Hold(h)))
            else s' == FreeOwn(s, p, q.(chan := 0, pc := h))
  {
    hide Locking;
  }

  /** sleep(ch) from where it has the process's lock: the process sleeps on ch, keeps that through swtch, and when it
      runs again it has no channel and goes on where it was, with its lock if sleep was called with it. */
  lemma SleepsOnChannel(s: State, c: int, k: Pc)
    requires Enabled(s, c, Go(k)) && OnCpu(s, c, s.cpus[c].run)
    ensures var p, s' := s.cpus[c].run, Do(s, c, Go(k));
            var q := s.procs[p];
            && |s'.procs| == |s.procs|
            && (q.pc.Nap2? ==> s'.procs[p] == Proc(SLEEPING, q.pc.ch, Nap3(q.pc.k, q.pc.own), q.cpu))
            && (q.pc.Nap3? ==> s'.procs[p] == Proc(q.state, q.chan, Napping(q.pc.k, q.pc.own), -1))
            && (q.pc.Nap4? ==> s'.procs[p] == q.(chan := 0, pc := if q.pc.own then Hold(q.pc.k) else q.pc.k))
  {
    hide Gone, OnCpu, MayGo;
    var p := s.cpus[c].run;
    OnCpuParts(s, c, p);
    TurnSize(s, c, p, k);
    if s.procs[p].pc.Nap2? {
      NapTurn(s, c, p, k);
    } else if s.procs[p].pc.Nap3? {
      NapOutTurn(s, c, p, k);
    } else if s.procs[p].pc.Nap4? {
      NapEndTurn(s, c, p, k);
    }
  }

  /** The process is in acquiresleep. */
  predicate Acquiring(pc: Pc) {
    var h := Home(pc);
    || h.Want? || h.Test? || h.Sleep1? || h.Sleep2? || h.Sleep3? || h.Sleep4? || h.Asleep? || h.Awake? || h.Got?
  }

  predicate AtLk(pc: Pc) { pc.Want? || pc.Test? || pc.Sleep1? || pc.Sleep2? || pc.Got? }

  /** The turns on lk and on the sleep lock. */
  lemma LkTurn(s: State, c: int, p: int, k: Pc)
    requires 0 <= p < |s.procs| == |s.plock| && 0 <= c < |s.cpus| && MayGo(s, p, k)
    requires AtLk(s.procs[p].pc) && k != Yield1(s.procs[p].pc)
    ensures Gone(s, c, p, k) == Locking(s, c, p)
  {
    hide Locking;
  }

  lemma LkAcquires(s: State, c: int, p: int)
    requires 0 <= p < |s.procs| == |s.plock| && AtLk(s.procs[p].pc)
    requires HasLock(s.procs[p].pc) ==> s.locked && s.owner == p
    ensures var s' := Locking(s, c, p);
            && |s'.procs| == |s.procs|
            && (Acquiring(s'.procs[p].pc) || (s'.procs[p].pc == Inside && s'.locked && s'.owner == p))
  {
  }

  /** The turns of sleep itself. */
  lemma SleepAcquires(s: State, c: int, p: int, k: Pc)
    requires 0 <= p < |s.procs| == |s.plock| && 0 <= c < |s.cpus| && MayGo(s, p, k)
    requires var pc := s.procs[p].pc; pc.Sleep3? || pc.Sleep4? || pc.Awake?
    ensures |Gone(s, c, p, k).procs| == |s.procs| && Acquiring(Gone(s, c, p, k).procs[p].pc)
  {
    hide Locking, Acted;
  }

  /** The turns of a process that a timer interrupt made yield. */
  lemma YieldAcquires(s: State, c: int, p: int, k: Pc)
    requires 0 <= p < |s.procs| == |s.plock| && 0 <= c < |s.cpus| && MayGo(s, p, k)
    requires var pc := s.procs[p].pc; (pc.Yield1? || pc.Yield2?) && pc.k == Want
    ensures |Gone(s, c, p, k).procs| == |s.procs| && Acquiring(Gone(s, c, p, k).procs[p].pc)
  {
    hide Locking, Acted, Freed, Out;
  }

  lemma YieldReturns(s: State, c: int, p: int, k: Pc)
    requires 0 <= p < |s.procs| == |s.plock| && 0 <= c < |s.cpus| && MayGo(s, p, k)
    requires var pc := s.procs[p].pc; (pc.Yield3? || pc.Yield4?) && pc.k == Want
    ensures |Gone(s, c, p, k).procs| == |s.procs| && Acquiring(Gone(s, c, p, k).procs[p].pc)
  {
    hide Locking, Acted, Changed, Taken;
  }

  lemma YieldBegins(s: State, c: int, p: int, k: Pc)
    requires 0 <= p < |s.procs| == |s.plock| && 0 <= c < |s.cpus| && MayGo(s, p, k)
    requires s.procs[p].pc == Want && k == Yield1(Want)
    ensures |Gone(s, c, p, k).procs| == |s.procs| && Acquiring(Gone(s, c, p, k).procs[p].pc)
  {
    hide Locking, Acted, Changed, Freed, Taken;
  }

  lemma AcquiringIs(pc: Pc, n: int)
    requires Acquiring(pc) && PcOk(pc, n) && !AtLk(pc)
    ensures pc.Sleep3? || pc.Sleep4? || pc.Asleep? || pc.Awake? || (Yielding(pc) && pc.k == Want)
  {
  }

  /** In every run a process in acquiresleep is still in it after its turn, or has the lock. */
  lemma AcquiresOrWaits(ss: seq<State>, s: State, s': State, c: int, k: Pc)
    requires |ss| > 0 && s == ss[|ss| - 1] && Run(ss) && Enabled(s, c, Go(k)) && s' == Do(s, c, Go(k))
    requires Acquiring(s.procs[s.cpus[c].run].pc)
    ensures var p := s.cpus[c].run;
            && |s'.procs| == |s.procs|
            && (Acquiring(s'.procs[p].pc) || (s'.procs[p].pc == Inside && s'.locked && s'.owner == p))
  {
    RunInv(ss);
    hide Run, Inv;
    var p := s.cpus[c].run;
    OnCpuParts(s, c, p);
    hide Acquiring, Gone, Locking;
    if AtLk(s.procs[p].pc) && k != Yield1(s.procs[p].pc) {
      LkTurn(s, c, p, k);
      LkAcquires(s, c, p);
    } else if AtLk(s.procs[p].pc) {
      YieldBegins(s, c, p, k);
    } else {
      AcquiringIs(s.procs[p].pc, |s.procs|);
      if s.procs[p].pc.Yield1? || s.procs[p].pc.Yield2? {
        YieldAcquires(s, c, p, k);
      } else if Yielding(s.procs[p].pc) {
        YieldReturns(s, c, p, k);
      } else {
        SleepAcquires(s, c, p, k);
      }
    }
  }
}
