/**
 * When wait (kernel/proc.c) gives up and when it sleeps: it sleeps only with a child to wait for, and returns -1,
 * unless the process is killed or cannot take the status, only without one.
 */
module WaitKids {
  import opened ExitWait
  import opened InitMiss
  import opened ExitDeadlock

  ghost predicate HasKid(s: State, p: int) {
    exists q :: In(q, |s.procs|) && s.procs[q].parent == p
  }

  /** None of the first i slots holds a child of p, but for children handed to init behind its back. */
  ghost predicate NoKid(s: State, p: int, i: int) {
    forall q :: In(q, |s.procs|) && q < i && s.procs[q].parent == p ==> p == INIT && s.procs[q].handed
  }

  /** What a process in wait knows of its children. */
  ghost predicate Minds(s: State, p: int)
    requires In(p, |s.procs|)
  {
    match s.procs[p].pc
    case Scan(i, kids) => if kids then HasKid(s, p) else NoKid(s, p, i)
    case Asleep => HasKid(s, p)
    case _ => true
  }

  ghost predicate AllMind(s: State) {
    forall p :: In(p, |s.procs|) ==> Minds(s, p)
  }

  /** Parents are as they were, and so are positions but for p's. */
  ghost predicate SameParents(s: State, s': State, p: int) {
    && |s'.procs| == |s.procs|
    && forall q :: In(q, |s.procs|) ==>
         && s'.procs[q].parent == s.procs[q].parent && s'.procs[q].handed == s.procs[q].handed
         && (q != p ==> s'.procs[q].pc == s.procs[q].pc)
  }

  lemma SameMinds(s: State, s': State, p: int)
    requires AllMind(s) && SameParents(s, s', p) && (In(p, |s'.procs|) ==> Minds(s', p))
    ensures AllMind(s')
  {
    forall q | In(q, |s'.procs|) ensures Minds(s', q) {
      if q != p {
        assert Minds(s, q);
        if HasKid(s, q) {
          var k :| In(k, |s.procs|) && s.procs[k].parent == q;
          assert In(k, |s'.procs|) && s'.procs[k].parent == q;
        }
      }
    }
  }

  /** Slot i's parent changes, from one that is not q to one that is not q unless it is handed to init. */
  lemma OtherMinds(s: State, s': State, i: int, q: int)
    requires |s'.procs| == |s.procs| && In(i, |s.procs|) && In(q, |s.procs|) && Minds(s, q)
    requires s'.procs[q].pc == s.procs[q].pc && s.procs[i].parent != q
    requires s'.procs[i].parent == q ==> q == INIT && s'.procs[i].handed
    requires forall k :: In(k, |s.procs|) && k != i ==>
               s'.procs[k].parent == s.procs[k].parent && s'.procs[k].handed == s.procs[k].handed
    ensures Minds(s', q)
  {
    if HasKid(s, q) {
      var k :| In(k, |s.procs|) && s.procs[k].parent == q;
      assert In(k, |s'.procs|) && s'.procs[k].parent == q;
    }
  }

  lemma CreateMinds(s: State, s': State, p: int, i: int)
    requires Inv(s) && AllMind(s) && Creates(s, s', p, i)
    ensures AllMind(s')
  {
    Known(s, i);
    hide Inv, IdInv, Knows, Watched;
    forall q | In(q, |s'.procs|) ensures Minds(s', q) {
      if q != p && q != i {
        assert Minds(s, q);
        OtherMinds(s, s', i, q);
      }
    }
  }

  lemma HandMinds(s: State, s': State, p: int, i: int)
    requires AllMind(s) && Hands(s, s', p, i) && s'.procs[p].pc.Give? && s.procs[i].parent == p
    ensures AllMind(s')
  {
    forall q | In(q, |s'.procs|) ensures Minds(s', q) {
      if q != p {
        assert Minds(s, q);
        OtherMinds(s, s', i, q);
      }
    }
  }

  lemma ReapMinds(s: State, s': State, p: int, i: int)
    requires AllMind(s) && Reaps(s, s', p, i) && s.procs[i].parent == p
    ensures AllMind(s')
  {
    forall q | In(q, |s'.procs|) ensures Minds(s', q) {
      if q != p && q != i {
        assert Minds(s, q);
        OtherMinds(s, s', i, q);
      }
    }
  }

  lemma QuietParents(s: State, s': State, p: int)
    requires Quiet(s, s', p)
    ensures SameParents(s, s', p)
  {
  }

  lemma WokenParents(s: State, t: int, s': State, p: int)
    requires In(t, |s.procs|) && Quiet(Woken(s, t), s', p)
    ensures SameParents(s, s', p)
  {
  }

  lemma ForkMinds(s: State, p: int, x: Choice)
    requires Inv(s) && AllMind(s) && Enabled(s, p, x) && Forking(s.procs[p].pc)
    ensures AllMind(DoFork(s, p, x))
  {
    hide Inv, AllMind, Creates, Knows, Watched, IdInv, Quiet;
    var pc, s' := s.procs[p].pc, DoFork(s, p, x);
    Known(s, p);
    ForkQuiet(s, p, x);
    if pc.Slot? && s.procs[pc.i].state == UNUSED && !x.Fail? {
      CreateMinds(s, s', p, pc.i);
    } else {
      QuietParents(s, s', p);
      SameMinds(s, s', p);
    }
  }

  lemma TakeMinds(s: State, p: int, x: Choice)
    requires Inv(s) && AllMind(s) && Enabled(s, p, x) && Taking(s.procs[p].pc)
    ensures AllMind(DoExit(s, p))
  {
    hide Inv, AllMind, Knows, Watched, IdInv, Quiet, SameParents;
    var s' := DoExit(s, p);
    Known(s, p);
    TakeQuiet(s, p, x);
    if s.procs[p].pc.Exit2? {
      WokenParents(s, INIT, s', p);
    } else {
      QuietParents(s, s', p);
    }
    SameMinds(s, s', p);
  }

  lemma GiveMinds(s: State, p: int, x: Choice)
    requires Inv(s) && AllMind(s) && Enabled(s, p, x) && Giving(s.procs[p].pc)
    ensures AllMind(DoGive(s, p))
  {
    hide Inv, AllMind, Watched, IdInv, Quiet, Hands, SameParents;
    var s' := DoGive(s, p);
    Known(s, p);
    GiveQuiet(s, p, x);
    if s.procs[p].pc.Given? {
      HandMinds(s, s', p, s.procs[p].pc.i);
    } else {
      QuietParents(s, s', p);
      SameMinds(s, s', p);
    }
  }

  lemma DieMinds(s: State, p: int, x: Choice)
    requires Inv(s) && AllMind(s) && Enabled(s, p, x) && Dying(s.procs[p].pc)
    ensures AllMind(DoDie(s, p))
  {
    hide Inv, AllMind, Knows, Watched, IdInv, Quiet;
    var pc, s' := s.procs[p].pc, DoDie(s, p);
    Known(s, p);
    DyingQuiet(s, p, x);
    if pc.Exit7? {
      WokenParents(s, pc.was, s', p);
    } else if !pc.Exit8? {
      QuietParents(s, s', p);
    }
    SameMinds(s, s', p);
  }

  lemma WaitParents(s: State, p: int, x: Choice)
    requires Enabled(s, p, x)
    requires var pc := s.procs[p].pc; pc.Wait1? || pc.Asleep? || pc.Scan? || pc.Found?
    ensures SameParents(s, DoWait(s, p, x), p)
  {
  }

  lemma WaitMind(s: State, p: int, x: Choice)
    requires Enabled(s, p, x) && Minds(s, p) && SameParents(s, DoWait(s, p, x), p)
    requires var pc := s.procs[p].pc; pc.Wait1? || pc.Asleep? || pc.Scan? || pc.Found?
    ensures Minds(DoWait(s, p, x), p)
  {
    var s' := DoWait(s, p, x);
    if HasKid(s, p) {
      var k :| In(k, |s.procs|) && s.procs[k].parent == p;
      assert In(k, |s'.procs|) && s'.procs[k].parent == p;
    }
  }

  lemma WaitMinds(s: State, p: int, x: Choice)
    requires AllMind(s) && Enabled(s, p, x)
    requires var pc := s.procs[p].pc; pc.Wait1? || pc.Asleep? || pc.Scan? || pc.Found?
    ensures AllMind(DoWait(s, p, x))
  {
    assert Minds(s, p);
    hide AllMind, Minds, DoWait, SameParents;
    WaitParents(s, p, x);
    WaitMind(s, p, x);
    SameMinds(s, DoWait(s, p, x), p);
  }

  lemma ChildMinds(s: State, p: int, x: Choice)
    requires Inv(s) && AllMind(s) && Enabled(s, p, x) && s.procs[p].pc.Child?
    ensures AllMind(DoWait(s, p, x))
  {
    var i, s' := s.procs[p].pc.i, DoWait(s, p, x);
    Known(s, p);
    hide Inv, AllMind, Watched, IdInv, Quiet, Reaps;
    ChildQuiet(s, p, x);
    if s.procs[i].state == ZOMBIE && !x.Fail? {
      ReapMinds(s, s', p, i);
    } else {
      QuietParents(s, s', p);
      assert In(i, |s'.procs|) && s'.procs[i].parent == p;
      SameMinds(s, s', p);
    }
  }

  lemma BeginMinds(s: State, p: int, x: Choice)
    requires AllMind(s) && Enabled(s, p, x) && s.procs[p].pc.Free?
    ensures AllMind(Do(s, p, x))
  {
    hide AllMind;
    SameMinds(s, Do(s, p, x), p);
  }

  lemma KillMinds(s: State, t: int)
    requires AllMind(s) && In(t, |s.procs|)
    ensures AllMind(Woken(s, t))
  {
    hide AllMind;
    SameMinds(s, Woken(s, t), -1);
  }

  lemma StepMinds(s: State, s': State)
    requires Inv(s) && AllMind(s) && Step(s, s')
    ensures AllMind(s')
  {
    hide Inv, AllMind, DoFork, DoExit, DoGive, DoDie, DoWait, Woken;
    if Killed(s, s') {
      var t :| 0 <= t < |s.procs| == |s.lock| && s.lock[t] == -1 && s' == Woken(s, t);
      KillMinds(s, t);
    } else {
      var p, x :| Enabled(s, p, x) && s' == Do(s, p, x);
      var pc := s.procs[p].pc;
      if pc.Free? {
        BeginMinds(s, p, x);
      } else if Forking(pc) {
        ForkMinds(s, p, x);
      } else if Taking(pc) {
        TakeMinds(s, p, x);
      } else if Giving(pc) {
        GiveMinds(s, p, x);
      } else if Dying(pc) {
        DieMinds(s, p, x);
      } else if pc.Child? {
        ChildMinds(s, p, x);
      } else {
        WaitMinds(s, p, x);
      }
    }
  }

  lemma {:induction false} RunMinds(ss: seq<State>)
    requires Run(ss)
    ensures Inv(ss[|ss| - 1]) && AllMind(ss[|ss| - 1])
  {
    hide Inv, AllMind, Step, Init;
    RunInv(ss);
    if |ss| == 1 {
      InitMinds(ss[0]);
    } else {
      var n := |ss| - 1;
      Shorter(ss);
      RunMinds(ss[..n]);
      StepMinds(ss[n - 1], ss[n]);
    }
  }

  lemma InitMinds(s: State)
    requires Init(s)
    ensures AllMind(s)
  {
  }

  // ----- what it gives

  /** In every run, a process asleep in wait has a child. */
  lemma SleeperHasKid(ss: seq<State>, p: int)
    requires Run(ss) && In(p, |ss[|ss| - 1].procs|) && ss[|ss| - 1].procs[p].state == SLEEPING
    ensures HasKid(ss[|ss| - 1], p)
  {
    RunMinds(ss);
    var s := ss[|ss| - 1];
    assert StateOk(p, s.procs[p]) && Minds(s, p);
  }

  /** In every run, the end of a scan by a process that is not killed: it goes to sleep if it has seen a child, and then
      it has one; it gives up, returning -1, if it has not, and then it has none, but for children of init that were
      handed to it meanwhile.  InitWait shows that init has none then either. */
  lemma GivesUpIff(ss: seq<State>, p: int, x: Choice)
    requires Run(ss) && Enabled(ss[|ss| - 1], p, x) && !x.Fail?
    requires var s := ss[|ss| - 1]; s.procs[p].pc.Scan? && s.procs[p].pc.i == |s.procs|
    ensures var s := ss[|ss| - 1];
            var s' := Do(s, p, x);
            && In(p, |s'.procs|)
            && (s'.procs[p].state == SLEEPING || s'.procs[p].pc == Free)
            && (s'.procs[p].state == SLEEPING ==> HasKid(s, p))
            && (s'.procs[p].pc == Free ==> NoKid(s, p, |s.procs|))
            && (p != INIT ==> (s'.procs[p].pc == Free <==> !HasKid(s, p)))
  {
    RunMinds(ss);
    var s := ss[|ss| - 1];
    assert Minds(s, p) && StateOk(p, s.procs[p]);
    hide Run, Inv, AllMind;
  }
}
