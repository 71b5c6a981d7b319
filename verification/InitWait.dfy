/**
 * wait by init (kernel/proc.c): children are handed to init while it looks through the slots, also behind the place it
 * has reached, and still it gives up only when it has none.
 */
module InitWait {
  import opened ExitWait
  import opened Families
  import opened WaitKids

  // ----- parents are older than their children

  /** Init was first, and the process in slot i is younger than its parent. */
  ghost predicate Younger(s: State, i: int)
    requires In(i, |s.procs|)
  {
    i != INIT && Used(s.procs[i]) ==>
      In(s.procs[i].parent, |s.procs|) && s.procs[s.procs[i].parent].id < s.procs[i].id
  }

  ghost predicate Aged(s: State) {
    && |s.procs| > 0 && s.procs[INIT].id == 0
    && forall i :: In(i, |s.procs|) ==> Younger(s, i)
  }

  /** The oldest process besides init is a child of init. */
  lemma {:induction false} SomeoneIsInits(s: State, i: int) returns (q: int)
    requires Inv(s) && Aged(s) && In(i, |s.procs|) && i != INIT && Used(s.procs[i])
    ensures In(q, |s.procs|) && s.procs[q].parent == INIT
    decreases s.procs[i].id
  {
    assert Younger(s, i) && ParentOk(s, i);
    var p := s.procs[i].parent;
    if p == INIT {
      q := i;
    } else {
      q := SomeoneIsInits(s, p);
    }
  }

  lemma DoAged(s: State, p: int, x: Choice)
    requires Inv(s) && Aged(s) && Enabled(s, p, x)
    ensures Aged(Do(s, p, x))
  {
    hide Inv, Do, Affects, Enabled, Aged, Younger, Steady;
    DoSteady(s, p, x);
    SelfKept(s, p, x);
    AgedParts(s, p, x);
    forall i | In(i, |s.procs|) ensures Younger(Do(s, p, x), i) {
      DoYounger(s, p, x, i);
    }
    AgedFrom(Do(s, p, x));
  }

  lemma AgedFrom(s: State)
    requires |s.procs| > 0 && s.procs[INIT].id == 0 && forall i :: In(i, |s.procs|) ==> Younger(s, i)
    ensures Aged(s)
  {
  }

  lemma AgedParts(s: State, p: int, x: Choice)
    requires Inv(s) && Aged(s) && Enabled(s, p, x) && Steady(s, Do(s, p, x))
    ensures var s' := Do(s, p, x); |s'.procs| == |s.procs| > 0 && s'.procs[INIT].id == 0
  {
    hide Do;
    assert StateOk(INIT, s.procs[INIT]);
  }

  lemma DoYounger(s: State, p: int, x: Choice, i: int)
    requires Inv(s) && Aged(s) && Enabled(s, p, x) && In(i, |s.procs|)
    requires Steady(s, Do(s, p, x)) && OwnKept(s, Do(s, p, x), p) && Do(s, p, x).procs[INIT].id == 0
    ensures Younger(Do(s, p, x), i)
  {
    hide Do, Affects;
    var s' := Do(s, p, x);
    assert ParentOk(s, i) && Younger(s, i) && StateOk(INIT, s.procs[INIT]) && StateOk(p, s.procs[p]);
    if i != p {
      InvAffects(s, p, x, i);
      AffectsAge(s, s', p, x, i);
    }
  }

  lemma AffectsAge(s: State, s': State, p: int, x: Choice, i: int)
    requires In(p, |s.procs|) && In(i, |s.procs|) && |s'.procs| == |s.procs| && Affects(s, s', p, x, i)
    ensures Used(s'.procs[i]) ==>
              || (s'.procs[i].id == s.procs[i].id && Used(s.procs[i])
                    && (s'.procs[i].parent == s.procs[i].parent || s'.procs[i].parent == INIT))
              || (s'.procs[i].id == s.births && s'.procs[i].parent == p)
  {
  }

  // ----- a child still to be seen

  ghost predicate KidFrom(s: State, i: int) {
    exists q :: In(q, |s.procs|) && i <= q && s.procs[q].parent == INIT
  }

  /** While init has seen no child in its scan, if it has one then one is still ahead. */
  ghost predicate Sees(s: State) {
    && |s.procs| > 0
    && (s.procs[INIT].pc.Scan? && !s.procs[INIT].pc.kids && HasKid(s, INIT) ==> KidFrom(s, s.procs[INIT].pc.i))
  }

  /** A step of another process: while there is one, init has a child, and its children stay so. */
  lemma OtherSees(s: State, p: int, x: Choice)
    requires Inv(s) && Aged(s) && Sees(s) && Enabled(s, p, x) && p != INIT
    ensures Sees(Do(s, p, x))
  {
    hide Inv, Do, Affects, Enabled, Aged, KidFrom, HasKid;
    var s' := Do(s, p, x);
    SelfKept(s, p, x);
    InitStays(s, p, x);
    Acting(s, p, x);
    var q := SomeoneIsInits(s, p);
    HasKidIs(s, q);
    if s.procs[INIT].pc.Scan? && !s.procs[INIT].pc.kids {
      KidStays(s, p, x, s.procs[INIT].pc.i);
    }
  }

  lemma HasKidIs(s: State, q: int)
    requires In(q, |s.procs|) && s.procs[q].parent == INIT
    ensures HasKid(s, INIT)
  {
  }

  lemma InitStays(s: State, p: int, x: Choice)
    requires Inv(s) && Enabled(s, p, x) && p != INIT
    ensures |s.procs| > 0 && |Do(s, p, x).procs| == |s.procs| && Do(s, p, x).procs[INIT].pc == s.procs[INIT].pc
  {
    hide Do;
    assert StateOk(INIT, s.procs[INIT]) && ParentOk(s, INIT);
    InvAffects(s, p, x, INIT);
  }

  lemma KidStays(s: State, p: int, x: Choice, i: int)
    requires Inv(s) && Enabled(s, p, x) && p != INIT && KidFrom(s, i)
    ensures KidFrom(Do(s, p, x), i)
  {
    hide Inv, Do, Enabled;
    var q :| In(q, |s.procs|) && i <= q && s.procs[q].parent == INIT;
    SelfKept(s, p, x);
    if q != p {
      InvAffects(s, p, x, q);
      UsedKid(s, q);
    }
    assert In(q, |Do(s, p, x).procs|);
  }

  lemma UsedKid(s: State, q: int)
    requires Inv(s) && In(q, |s.procs|) && s.procs[q].parent == INIT
    ensures Used(s.procs[q]) && q != INIT
  {
    assert ParentOk(s, q);
  }

  lemma Acting(s: State, p: int, x: Choice)
    requires Inv(s) && Enabled(s, p, x)
    ensures In(p, |s.procs|) && Used(s.procs[p])
  {
    assert StateOk(p, s.procs[p]);
  }

  /** A step of init itself. */
  lemma InitSees(s: State, x: Choice)
    requires Inv(s) && Sees(s) && Enabled(s, INIT, x)
    ensures Sees(Do(s, INIT, x))
  {
    var s' := Do(s, INIT, x);
    var pc := s.procs[INIT].pc;
    SelfKept(s, INIT, x);
    hide Inv, Affects;
    if pc.Scan? && pc.i < |s.procs| {
      ScanSees(s, x);
    } else if s'.procs[INIT].pc.Scan? {
      FreshScan(s, x);
    }
  }

  lemma ScanSees(s: State, x: Choice)
    requires |s.lock| == |s.procs| > 0 && Sees(s) && Enabled(s, INIT, x)
    requires s.procs[INIT].pc.Scan? && s.procs[INIT].pc.i < |s.procs|
    ensures Sees(DoWait(s, INIT, x))
  {
    var s', pc := DoWait(s, INIT, x), s.procs[INIT].pc;
    assert forall q :: In(q, |s.procs|) ==> s'.procs[q].parent == s.procs[q].parent;
    if HasKid(s', INIT) {
      var q :| In(q, |s'.procs|) && s'.procs[q].parent == INIT;
      HasKidIs(s, q);
      if !pc.kids {
        var k :| In(k, |s.procs|) && pc.i <= k && s.procs[k].parent == INIT;
        assert s'.procs[k].parent == INIT;
      }
    }
  }

  lemma OtherNoScan(s: State, p: int, x: Choice)
    requires Enabled(s, p, x) && Do(s, p, x).procs[p].pc.Scan?
    ensures var pc := s.procs[p].pc; !pc.Free? && !Forking(pc) && !Taking(pc) && !Giving(pc) && !Dying(pc)
  {
    hide DoWait;
  }

  lemma ScanStart(s: State, p: int, x: Choice)
    requires Enabled(s, p, x) && DoWait(s, p, x).procs[p].pc.Scan?
    requires !(s.procs[p].pc.Scan? && s.procs[p].pc.i < |s.procs|)
    requires var pc := s.procs[p].pc; !pc.Free? && !Forking(pc) && !Taking(pc) && !Giving(pc) && !Dying(pc)
    ensures var pc := DoWait(s, p, x).procs[p].pc; pc.kids || pc.i == 0
  {
  }

  /** A scan begins with all slots ahead; one that goes on after a child has seen one. */
  lemma FreshScan(s: State, x: Choice)
    requires Enabled(s, INIT, x) && |s.procs| > 0 && |Do(s, INIT, x).procs| == |s.procs|
    requires !(s.procs[INIT].pc.Scan? && s.procs[INIT].pc.i < |s.procs|) && Do(s, INIT, x).procs[INIT].pc.Scan?
    ensures Sees(Do(s, INIT, x))
  {
    OtherNoScan(s, INIT, x);
    hide Enabled, DoFork, DoExit, DoGive, DoDie, DoWait;
    ScanStart(s, INIT, x);
    var s' := Do(s, INIT, x);
    if HasKid(s', INIT) && !s'.procs[INIT].pc.kids {
      var q :| In(q, |s'.procs|) && s'.procs[q].parent == INIT;
      assert s'.procs[INIT].pc.i <= q;
    }
  }

  lemma KillSees(s: State, p: int)
    requires Inv(s) && Aged(s) && Sees(s) && In(p, |s.procs|)
    ensures Aged(Woken(s, p)) && Sees(Woken(s, p))
  {
    hide Inv;
    var s' := Woken(s, p);
    assert forall q :: In(q, |s.procs|) ==> s'.procs[q].parent == s.procs[q].parent && s'.procs[q].id == s.procs[q].id;
    forall i | In(i, |s'.procs|) ensures Younger(s', i) {
      assert Younger(s, i);
    }
    if HasKid(s', INIT) {
      var q :| In(q, |s'.procs|) && s'.procs[q].parent == INIT;
      HasKidIs(s, q);
      if s.procs[INIT].pc.Scan? && !s.procs[INIT].pc.kids {
        var k :| In(k, |s.procs|) && s.procs[INIT].pc.i <= k && s.procs[k].parent == INIT;
        assert s'.procs[k].parent == INIT;
      }
    }
  }

  lemma StepSees(s: State, s': State)
    requires Inv(s) && Aged(s) && Sees(s) && Step(s, s')
    ensures Aged(s') && Sees(s')
  {
    hide Inv, Aged, Sees, Do, Enabled, Woken;
    if Killed(s, s') {
      var p :| 0 <= p < |s.procs| == |s.lock| && s.lock[p] == -1 && s' == Woken(s, p);
      KillSees(s, p);
    } else {
      var p, x :| Enabled(s, p, x) && s' == Do(s, p, x);
      DoAged(s, p, x);
      if p == INIT {
        InitSees(s, x);
      } else {
        OtherSees(s, p, x);
      }
    }
  }

  lemma {:induction false} RunSees(ss: seq<State>)
    requires Run(ss)
    ensures Aged(ss[|ss| - 1]) && Sees(ss[|ss| - 1])
  {
    hide Inv, Step, Aged, Sees;
    var n := |ss| - 1;
    if n == 0 {
      FirstSees(ss[0]);
    } else {
      RunShorter(ss, n);
      RunSees(ss[..n]);
      StepSees(ss[n - 1], ss[n]);
    }
  }

  lemma FirstSees(s: State)
    requires Init(s)
    ensures Aged(s) && Sees(s)
  {
  }

  /** In every run, a wait that has looked through all slots and is not killed returns -1 if and only if no slot has the
      process as its parent, and else sleeps; so also for init, whatever it is handed in the meantime. */
  lemma WaitGivesUpIff(ss: seq<State>, p: int, x: Choice)
    requires Run(ss) && Enabled(ss[|ss| - 1], p, x) && !x.Fail?
    requires var s := ss[|ss| - 1]; s.procs[p].pc.Scan? && s.procs[p].pc.i == |s.procs|
    ensures var s := ss[|ss| - 1];
            var s' := Do(s, p, x);
            && In(p, |s'.procs|)
            && (s'.procs[p].pc == Free <==> !HasKid(s, p)) && (s'.procs[p].state == SLEEPING <==> HasKid(s, p))
  {
    hide Do, HasKid, Enabled, Sees, Step, Init;
    GivesUpIff(ss, p, x);
    RunSees(ss);
    var s := ss[|ss| - 1];
    EndOfScan(s, p, x);
    if p == INIT && !s.procs[p].pc.kids {
      NoneAhead(s);
    }
  }

  lemma NoneAhead(s: State)
    requires Sees(s) && s.procs[INIT].pc.Scan? && s.procs[INIT].pc.i == |s.procs| && !s.procs[INIT].pc.kids
    ensures !HasKid(s, INIT)
  {
  }

  lemma EndOfScan(s: State, p: int, x: Choice)
    requires Enabled(s, p, x) && !x.Fail? && s.procs[p].pc.Scan? && s.procs[p].pc.i == |s.procs|
    ensures var s' := Do(s, p, x);
            && |s'.procs| == |s.procs| && (s'.procs[p].pc == Free <==> !s.procs[p].pc.kids)
            && (s'.procs[p].state == SLEEPING <==> s.procs[p].pc.kids)
  {
  }
}
