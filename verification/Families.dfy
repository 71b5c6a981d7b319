/**
 * Who is whose parent (kernel/proc.c), in every run: what a step of fork, exit or wait does to other processes, and
 * that a process's parent is the one that forked it until that one exits, and init from then on.
 */
module Families {
  import opened ExitWait

  /** fork makes a process in slot i. */
  ghost predicate Makes(s: State, p: int, x: Choice, i: int)
    requires In(p, |s.procs|) && In(i, |s.procs|)
  {
    s.procs[p].pc == Slot(i) && s.procs[i].state == UNUSED && !x.Fail?
  }

  /** exit hands the process in slot i to init. */
  ghost predicate Hands(s: State, p: int, i: int)
    requires In(p, |s.procs|)
  {
    s.procs[p].pc.Given? && s.procs[p].pc.i == i
  }

  /** wait frees slot i. */
  ghost predicate Reaps(s: State, p: int, x: Choice, i: int)
    requires In(p, |s.procs|) && In(i, |s.procs|)
  {
    s.procs[p].pc == Child(i) && s.procs[i].state == ZOMBIE && !x.Fail?
  }

  /** exit wakes up the process in slot i: init when it begins, the parent when the children are handed over. */
  ghost predicate Wakes(s: State, p: int, i: int)
    requires In(p, |s.procs|) && In(i, |s.procs|)
  {
    s.procs[i].state == SLEEPING && ((s.procs[p].pc == Exit2 && i == INIT) || s.procs[p].pc == Exit7(i))
  }

  /** What becomes of the process in another slot. */
  ghost predicate Affects(s: State, s': State, p: int, x: Choice, i: int)
    requires In(p, |s.procs|) && In(i, |s.procs|) && |s'.procs| == |s.procs|
  {
    var q, q' := s.procs[i], s'.procs[i];
    if Makes(s, p, x, i) then q' == Proc(ALIVE, p, Free, s.births, false) && s'.births == s.births + 1
    else if Hands(s, p, i) then q' == q.(parent := INIT, handed := true) && q.parent == p
    else if Reaps(s, p, x, i) then q' == NoProc() && q.parent == p && s'.reaped == s.reaped + [q.id]
    else if Wakes(s, p, i) then q' == q.(state := ALIVE)
    else q' == q
  }

  lemma PlaceOf(s: State, p: int)
    requires Inv(s) && In(p, |s.procs|)
    ensures |s.lock| == |s.procs| && Knows(s, p) && Claims(s.lock, p, s.procs[p].pc) && StateOk(p, s.procs[p])
  {
  }

  lemma ForkAffects(s: State, p: int, x: Choice, i: int)
    requires Inv(s) && Enabled(s, p, x) && Forking(s.procs[p].pc) && In(i, |s.procs|) && i != p
    ensures |DoFork(s, p, x).procs| == |s.procs| && Affects(s, DoFork(s, p, x), p, x, i)
  {
  }

  lemma TakeAffects(s: State, p: int, x: Choice, i: int)
    requires Inv(s) && Enabled(s, p, x) && Taking(s.procs[p].pc) && In(i, |s.procs|) && i != p
    ensures |DoExit(s, p).procs| == |s.procs| && Affects(s, DoExit(s, p), p, x, i)
  {
  }

  lemma GiveAffects(s: State, p: int, x: Choice, i: int)
    requires Inv(s) && Enabled(s, p, x) && Giving(s.procs[p].pc) && In(i, |s.procs|) && i != p
    ensures |DoGive(s, p).procs| == |s.procs| && Affects(s, DoGive(s, p), p, x, i)
  {
    hide Inv, Childless;
    PlaceOf(s, p);
  }

  lemma DieAffects(s: State, p: int, x: Choice, i: int)
    requires Inv(s) && Enabled(s, p, x) && Dying(s.procs[p].pc) && In(i, |s.procs|) && i != p
    ensures |DoDie(s, p).procs| == |s.procs| && Affects(s, DoDie(s, p), p, x, i)
  {
    hide Inv, Childless;
    PlaceOf(s, p);
  }

  lemma WaitAffects(s: State, p: int, x: Choice, i: int)
    requires Inv(s) && Enabled(s, p, x) && In(i, |s.procs|) && i != p
    requires var pc := s.procs[p].pc; !pc.Free? && !Forking(pc) && !Taking(pc) && !Giving(pc) && !Dying(pc)
    ensures |DoWait(s, p, x).procs| == |s.procs| && Affects(s, DoWait(s, p, x), p, x, i)
  {
    hide Inv, Childless;
    PlaceOf(s, p);
  }

  /** In every run, a step of p does to another process exactly this: fork makes it, with p as its parent; exit hands a
      child to init; wait frees a zombie child; exit wakes init, and later its parent, out of wait. */
  lemma StepAffects(ss: seq<State>, p: int, x: Choice, i: int)
    requires Run(ss) && Enabled(ss[|ss| - 1], p, x) && In(i, |ss[|ss| - 1].procs|) && i != p
    ensures var s := ss[|ss| - 1]; |Do(s, p, x).procs| == |s.procs| && Affects(s, Do(s, p, x), p, x, i)
  {
    RunInv(ss);
    InvAffects(ss[|ss| - 1], p, x, i);
  }

  lemma InvAffects(s: State, p: int, x: Choice, i: int)
    requires Inv(s) && Enabled(s, p, x) && In(i, |s.procs|) && i != p
    ensures |Do(s, p, x).procs| == |s.procs| && Affects(s, Do(s, p, x), p, x, i)
  {
    hide Inv, Affects, DoFork, DoExit, DoGive, DoDie, DoWait;
    var pc := s.procs[p].pc;
    if pc.Free? {
      FreeAffects(s, p, x, i);
    } else if Forking(pc) {
      ForkAffects(s, p, x, i);
    } else if Taking(pc) {
      TakeAffects(s, p, x, i);
    } else if Giving(pc) {
      GiveAffects(s, p, x, i);
    } else if Dying(pc) {
      DieAffects(s, p, x, i);
    } else {
      WaitAffects(s, p, x, i);
    }
  }

  lemma FreeAffects(s: State, p: int, x: Choice, i: int)
    requires Enabled(s, p, x) && s.procs[p].pc.Free? && In(i, |s.procs|) && i != p
    ensures |Do(s, p, x).procs| == |s.procs| && Affects(s, Do(s, p, x), p, x, i)
  {
  }

  // ----- over a run

  /** A process's own steps change neither its identity nor its parent, and an exiting process goes on exiting. */
  ghost predicate OwnKept(s: State, s': State, p: int)
    requires In(p, |s.procs|)
  {
    && |s'.procs| == |s.procs| && s.births <= s'.births && Used(s'.procs[p])
    && s'.procs[p].id == s.procs[p].id && s'.procs[p].parent == s.procs[p].parent
    && s'.procs[p].handed == s.procs[p].handed && (Exiting(s.procs[p].pc) ==> Exiting(s'.procs[p].pc))
  }

  lemma FreeOwn(s: State, p: int, x: Choice)
    requires Enabled(s, p, x) && StateOk(p, s.procs[p]) && s.procs[p].pc.Free?
    ensures OwnKept(s, Do(s, p, x), p)
  {
  }

  lemma ForkOwn(s: State, p: int, x: Choice)
    requires In(p, |s.procs|) && |s.procs| == |s.lock| && StateOk(p, s.procs[p]) && Forking(s.procs[p].pc)
    ensures OwnKept(s, DoFork(s, p, x), p)
  {
  }

  lemma TakeOwn(s: State, p: int)
    requires In(p, |s.procs|) && |s.procs| == |s.lock| && StateOk(p, s.procs[p]) && Taking(s.procs[p].pc)
    ensures OwnKept(s, DoExit(s, p), p)
  {
  }

  lemma GiveOwn(s: State, p: int)
    requires In(p, |s.procs|) && |s.procs| == |s.lock| && StateOk(p, s.procs[p]) && Giving(s.procs[p].pc)
    requires Claims(s.lock, p, s.procs[p].pc)
    ensures OwnKept(s, DoGive(s, p), p)
  {
  }

  lemma DieOwn(s: State, p: int)
    requires In(p, |s.procs|) && |s.procs| == |s.lock| && StateOk(p, s.procs[p]) && Dying(s.procs[p].pc)
    ensures OwnKept(s, DoDie(s, p), p)
  {
  }

  lemma WaitOwn(s: State, p: int, x: Choice)
    requires Enabled(s, p, x) && StateOk(p, s.procs[p]) && Claims(s.lock, p, s.procs[p].pc)
    requires var pc := s.procs[p].pc; !Forking(pc) && !Taking(pc) && !Giving(pc) && !Dying(pc)
    ensures OwnKept(s, DoWait(s, p, x), p)
  {
  }

  lemma SelfKept(s: State, p: int, x: Choice)
    requires Inv(s) && Enabled(s, p, x)
    ensures OwnKept(s, Do(s, p, x), p)
  {
    hide Inv, OwnKept, DoFork, DoExit, DoGive, DoDie, DoWait;
    PlaceOf(s, p);
    hide Claims, Knows;
    var pc := s.procs[p].pc;
    if pc.Free? {
      FreeOwn(s, p, x);
    } else if Forking(pc) {
      ForkOwn(s, p, x);
    } else if Taking(pc) {
      TakeOwn(s, p);
    } else if Giving(pc) {
      GiveOwn(s, p);
    } else if Dying(pc) {
      DieOwn(s, p);
    } else {
      WaitOwn(s, p, x);
    }
  }

  /** The process with this id has exited or is about to. */
  ghost predicate Leaving(s: State, id: nat) {
    forall k :: In(k, |s.procs|) && Used(s.procs[k]) && s.procs[k].id == id ==> Exiting(s.procs[k].pc)
  }

  /** The same process is in slot i of s and s'. */
  ghost predicate Still(s: State, s': State, i: int) {
    && In(i, |s.procs|) && In(i, |s'.procs|) && Used(s.procs[i]) && Used(s'.procs[i])
    && s'.procs[i].id == s.procs[i].id
  }

  /** The process in slot i has the same parent, or its parent left and it has been handed to init. */
  ghost predicate Lineage(s: State, s': State, i: int)
    requires In(i, |s.procs|) && In(i, |s'.procs|)
  {
    var q, q' := s.procs[i], s'.procs[i];
    if q'.handed == q.handed then q'.parent == q.parent && (In(q.parent, |s.procs|) ==> Still(s, s', q.parent))
    else q'.handed && q'.parent == INIT && In(q.parent, |s.procs|) && Leaving(s', s.procs[q.parent].id)
  }

  /** A process that is there was there before the step, or is new. */
  ghost predicate Steady(s: State, s': State) {
    && |s'.procs| == |s.procs| && s.births <= s'.births
    && (forall i :: In(i, |s.procs|) && Used(s'.procs[i]) && s'.procs[i].id < s.births ==> Still(s, s', i))
    && (forall i :: In(i, |s.procs|) && Used(s.procs[i]) && s.procs[i].state != ZOMBIE ==> Still(s, s', i))
    && (forall i :: Still(s, s', i) && Exiting(s.procs[i].pc) ==> Exiting(s'.procs[i].pc))
  }

  lemma DoSteady(s: State, p: int, x: Choice)
    requires Inv(s) && Enabled(s, p, x)
    ensures Steady(s, Do(s, p, x))
  {
    hide Do, Affects;
    var s' := Do(s, p, x);
    SelfKept(s, p, x);
    forall i | In(i, |s.procs|)
      ensures Used(s'.procs[i]) && s'.procs[i].id < s.births ==> Still(s, s', i)
      ensures Used(s.procs[i]) && s.procs[i].state != ZOMBIE ==> Still(s, s', i)
      ensures Still(s, s', i) && Exiting(s.procs[i].pc) ==> Exiting(s'.procs[i].pc)
    {
      if i != p {
        InvAffects(s, p, x, i);
        AffectsStill(s, s', p, x, i);
      }
    }
  }

  lemma AffectsStill(s: State, s': State, p: int, x: Choice, i: int)
    requires In(p, |s.procs|) && In(i, |s.procs|) && |s'.procs| == |s.procs| && Affects(s, s', p, x, i)
    ensures Used(s'.procs[i]) && s'.procs[i].id < s.births ==> Still(s, s', i)
    ensures Used(s.procs[i]) && s.procs[i].state != ZOMBIE ==> Still(s, s', i)
    ensures Still(s, s', i) && Exiting(s.procs[i].pc) ==> Exiting(s'.procs[i].pc)
  {
  }

  lemma DoLineage(s: State, p: int, x: Choice, i: int)
    requires Inv(s) && Enabled(s, p, x) && Still(s, Do(s, p, x), i)
    ensures Lineage(s, Do(s, p, x), i)
  {
    hide Do, Affects;
    var s' := Do(s, p, x);
    DoSteady(s, p, x);
    SelfKept(s, p, x);
    assert ParentOk(s, i);
    if i != p {
      InvAffects(s, p, x, i);
      AffectsParent(s, s', p, x, i);
      if s'.procs[i].handed != s.procs[i].handed {
        LeavesNow(s, s', p);
      }
    }
  }

  lemma AffectsParent(s: State, s': State, p: int, x: Choice, i: int)
    requires In(p, |s.procs|) && In(i, |s.procs|) && |s'.procs| == |s.procs| && Affects(s, s', p, x, i)
    requires Still(s, s', i) && StateOk(p, s.procs[p]) && ParentOk(s, i)
    ensures if s'.procs[i].handed == s.procs[i].handed then s'.procs[i].parent == s.procs[i].parent
            else s'.procs[i].handed && s'.procs[i].parent == INIT && s.procs[i].parent == p && Exiting(s.procs[p].pc)
  {
  }

  lemma LeavesNow(s: State, s': State, p: int)
    requires IdInv(s) && Steady(s, s') && Still(s, s', p) && Exiting(s.procs[p].pc)
    ensures Leaving(s', s.procs[p].id)
  {
  }

  lemma StepLineage(s: State, s': State)
    requires Inv(s) && Step(s, s')
    ensures Steady(s, s') && forall i :: Still(s, s', i) ==> Lineage(s, s', i)
  {
    hide Inv, Do, Lineage, Steady, Enabled, Woken;
    if Killed(s, s') {
      var p :| 0 <= p < |s.procs| == |s.lock| && s.lock[p] == -1 && s' == Woken(s, p);
      KillLineage(s, p);
    } else {
      var p, x :| Enabled(s, p, x) && s' == Do(s, p, x);
      DoSteady(s, p, x);
      forall i | Still(s, s', i) ensures Lineage(s, s', i) {
        DoLineage(s, p, x, i);
      }
    }
  }

  lemma KillLineage(s: State, p: int)
    requires Inv(s) && In(p, |s.procs|)
    ensures Steady(s, Woken(s, p)) && forall i :: Still(s, Woken(s, p), i) ==> Lineage(s, Woken(s, p), i)
  {
    forall i | Still(s, Woken(s, p), i) ensures Lineage(s, Woken(s, p), i) {
      assert ParentOk(s, i);
    }
  }

  /** Identities that have left stay so. */
  lemma LeavingStays(s: State, s': State, id: nat)
    requires Steady(s, s') && Leaving(s, id) && id < s.births
    ensures Leaving(s', id)
  {
  }

  lemma LineageMore(s: State, s1: State, s2: State, i: int)
    requires Inv(s) && s.births <= s1.births && Still(s, s1, i) && Still(s1, s2, i) && Steady(s1, s2)
    requires |s1.procs| == |s.procs| && Lineage(s, s1, i) && Lineage(s1, s2, i)
    ensures Lineage(s, s2, i)
  {
    var q := s.procs[i];
    if In(q.parent, |s.procs|) {
      assert ParentOk(s, i);
      assert s.procs[q.parent].id < s.births;
      if s1.procs[i].handed != q.handed {
        LeavingStays(s1, s2, s.procs[q.parent].id);
      }
    }
  }

  lemma RunShorter(ss: seq<State>, n: int)
    requires Run(ss) && 0 < n <= |ss|
    ensures Run(ss[..n]) && Inv(ss[n - 1]) && (n < |ss| ==> Step(ss[n - 1], ss[n]))
  {
    hide Inv, Step, Init;
    forall i, j | 0 <= i && j == i + 1 && j < n ensures Step(ss[..n][i], ss[..n][j]) {
      assert Step(ss[i], ss[j]);
    }
    RunInv(ss[..n]);
  }

  lemma {:induction false} Births(ss: seq<State>, a: int, b: int)
    requires Run(ss) && 0 <= a <= b < |ss|
    ensures ss[a].births <= ss[b].births && |ss[b].procs| == |ss[a].procs| && Inv(ss[a])
    decreases b - a
  {
    hide Inv, Step, Lineage;
    RunShorter(ss, a + 1);
    if a < b {
      Births(ss, a, b - 1);
      RunShorter(ss, b);
      StepLineage(ss[b - 1], ss[b]);
    }
  }

  /** In every run, as long as a process is there its parent is the same process, until that one exits: then it is init,
      for good. */
  lemma {:induction false} ParentUntilExit(ss: seq<State>, a: int, b: int, i: int)
    requires Run(ss) && 0 <= a <= b < |ss| && Still(ss[a], ss[b], i)
    ensures Lineage(ss[a], ss[b], i)
    decreases b - a
  {
    hide Inv, Step, Lineage, Steady, Run;
    Births(ss, a, b);
    if a == b {
      LineageSelf(ss[a], i);
    } else {
      Births(ss, a, b - 1);
      RunShorter(ss, b);
      StepLineage(ss[b - 1], ss[b]);
      StillBefore(ss[a], ss[b - 1], ss[b], i);
      ParentUntilExit(ss, a, b - 1, i);
      LineageMore(ss[a], ss[b - 1], ss[b], i);
    }
  }

  lemma LineageSelf(s: State, i: int)
    requires Inv(s) && Still(s, s, i)
    ensures Lineage(s, s, i)
  {
    assert ParentOk(s, i);
  }

  lemma StillBefore(s: State, s1: State, s2: State, i: int)
    requires Inv(s) && Steady(s1, s2) && Still(s, s2, i) && s.births <= s1.births && |s1.procs| == |s.procs|
    ensures Still(s, s1, i) && Still(s1, s2, i)
  {
  }
}
