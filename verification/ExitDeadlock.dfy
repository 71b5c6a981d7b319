/**
 * Whether exit and wait (kernel/proc.c) can block each other for good.  exit takes the lock of the parent that
 * it found when it began, then its own, then its children's one by one; wait takes its own lock and then its
 * children's.  By the time exit has the first of these locks its parent may be gone and the slot be another's.
 */
module ExitDeadlock {
  import opened ExitWait
  import opened InitMiss

  // ----- who waits for whom

  /** The lock a process is about to acquire, or -1. */
  function Awaits(p: int, pc: Pc): int {
    match pc
    case Alloc(i) => i
    case Exit1 => INIT
    case Exit3 => p
    case Exit5(was) => was
    case Exit6(_) => p
    case Saw(_, i) => i
    case Wait1 => p
    case Asleep => p
    case Found(i) => i
    case _ => -1
  }

  /** The locks a process holds. */
  predicate HoldsLock(p: int, pc: Pc, j: int) {
    match pc
    case Slot(i) => j == i
    case Exit2 => j == INIT
    case Exit4 => j == p
    case Exit6(was) => j == was
    case Give(was, _) => j == was || j == p
    case Saw(was, _) => j == was || j == p
    case Given(was, i) => j == was || j == p || j == i
    case Exit7(was) => j == was || j == p
    case Exit8(was) => j == was || j == p
    case Exit9(was) => j == was || j == p
    case Exit10 => j == p
    case Scan(_, _) => j == p
    case Found(_) => j == p
    case Child(i) => j == p || j == i
    case _ => false
  }

  /** p is about to acquire a lock that q holds. */
  ghost predicate Blocked(s: State, p: int, q: int) {
    && In(p, |s.procs|) && In(q, |s.procs|) && s.procs[p].state != SLEEPING
    && In(Awaits(p, s.procs[p].pc), |s.lock|) && s.lock[Awaits(p, s.procs[p].pc)] == q
  }

  /** A process that is blocked cannot move, whatever it chooses. */
  lemma BlockedStays(s: State, p: int, q: int, x: Choice)
    requires |s.lock| == |s.procs| && Blocked(s, p, q)
    ensures !Enabled(s, p, x)
  {
  }

  /** Each process of c is blocked by the next, and the last by the first. */
  ghost predicate Cycle(s: State, c: seq<int>) {
    |c| > 0 && forall k :: 0 <= k < |c| ==> Blocked(s, c[k], After(c, k))
  }

  function After(c: seq<int>, k: int): int
    requires 0 <= k < |c|
  {
    if k + 1 < |c| then c[k + 1] else c[0]
  }

  /** An exiting process that has the lock of a process that is not its parent any more. */
  ghost predicate Stale(s: State, p: int) {
    && In(p, |s.procs|)
    && match s.procs[p].pc
       case Exit6(was) => s.procs[p].parent != was
       case Saw(was, _) => s.procs[p].parent != was
       case _ => false
  }

  // ----- what holds in every run

  /** A parent is older than its children. */
  ghost predicate Elder(s: State, q: int)
    requires In(q, |s.procs|)
  {
    q != INIT && s.procs[q].state != UNUSED && In(s.procs[q].parent, |s.procs|) ==>
      s.procs[s.procs[q].parent].id < s.procs[q].id
  }

  predicate HasWas(pc: Pc) { pc.Exit5? || pc.Exit6? || pc.Give? || pc.Saw? || pc.Given? }

  /** An exiting process that has dealt with slot q. */
  predicate Passed(pc: Pc, q: int) {
    match pc
    case Give(_, i) => i > q
    case Saw(_, i) => i > q
    case Given(_, i) => i > q
    case _ => pc.Exit7? || pc.Exit8? || pc.Exit9? || pc.Exit10? || pc.Dead?
  }

  /** The parent that gave q away is leaving or has left slot was. */
  ghost predicate Left(s: State, was: int, q: int)
    requires In(was, |s.procs|) && In(q, |s.procs|)
  {
    s.procs[was].state == UNUSED || s.procs[was].id > s.procs[q].id || Passed(s.procs[was].pc, q)
  }

  /** The process in the slot of q's parent, whoever it is by now, is neither q nor its child. */
  ghost predicate Was(s: State, q: int)
    requires In(q, |s.procs|)
  {
    var pc := s.procs[q].pc;
    HasWas(pc) ==>
      && In(pc.was, |s.procs|) && pc.was != q && s.procs[pc.was].parent != q
      && (s.procs[q].parent != pc.was ==> Left(s, pc.was, q))
  }

  ghost predicate Owned(s: State, j: int)
    requires In(j, |s.lock|)
  {
    s.lock[j] == -1 || (In(s.lock[j], |s.procs|) && HoldsLock(s.lock[j], s.procs[s.lock[j]].pc, j))
  }

  ghost predicate Related(s: State) {
    |s.procs| > 0 && s.procs[INIT].id == 0 && forall q :: In(q, |s.procs|) ==> Elder(s, q) && Was(s, q)
  }

  ghost predicate Owners(s: State) {
    forall j :: In(j, |s.lock|) ==> Owned(s, j)
  }

  // ----- the steps by which processes change

  lemma {:induction false} QuietKin(s: State, s': State, p: int, q: int)
    requires Quiet(s, s', p) && In(q, |s.procs|) && Elder(s, q) && Was(s, q) && Was(s', p)
    requires Passed(s.procs[p].pc, q) ==> Passed(s'.procs[p].pc, q)
    ensures Elder(s', q) && Was(s', q)
  {
  }

  lemma WokenKin(s: State, t: int, q: int)
    requires In(t, |s.procs|) && In(q, |s.procs|) && Elder(s, q) && Was(s, q)
    ensures Elder(Woken(s, t), q) && Was(Woken(s, t), q)
  {
  }

  lemma CreateKin(s: State, s': State, p: int, i: int, q: int)
    requires Creates(s, s', p, i) && In(q, |s.procs|) && Elder(s, q) && Was(s, q) && ParentOk(s, q) && IdInv(s)
    requires StateOk(q, s.procs[q]) && i != INIT
    ensures Elder(s', q) && Was(s', q)
  {
  }

  lemma HandKin(s: State, s': State, p: int, i: int, q: int)
    requires Hands(s, s', p, i) && In(q, |s.procs|) && Elder(s, q) && Was(s, q) && Knows(s, q) && StateOk(q, s.procs[q])
    requires s.procs[p].pc.Given? && s.procs[p].pc.i == i && s'.procs[p].pc == Give(s.procs[p].pc.was, i + 1)
    requires s.procs[INIT].id == 0 && IdInv(s) && Used(s.procs[INIT]) && Used(s.procs[i]) && i != INIT
    ensures Elder(s', q) && Was(s', q)
  {
  }

  lemma DieKin(s: State, s': State, p: int, q: int)
    requires Dies(s, s', p) && In(q, |s.procs|) && Elder(s, q) && Was(s, q) && Used(s.procs[p])
    ensures Elder(s', q) && Was(s', q)
  {
  }

  lemma SleepKin(s: State, s': State, p: int, q: int)
    requires Sleeps(s, s', p) && In(q, |s.procs|) && Elder(s, q) && Was(s, q) && Used(s.procs[p])
    ensures Elder(s', q) && Was(s', q)
  {
  }

  lemma ReapKin(s: State, s': State, p: int, i: int, q: int)
    requires Reaps(s, s', p, i) && In(q, |s.procs|) && Elder(s, q) && Was(s, q) && ParentOk(s, q) && i != INIT
    ensures Elder(s', q) && Was(s', q)
  {
  }

  // ----- what each step does to families

  lemma Kindred(s: State, q: int)
    requires Related(s) && In(q, |s.procs|)
    ensures Elder(s, q) && Was(s, q)
  {
  }

  lemma Known(s: State, q: int)
    requires Inv(s) && In(q, |s.procs|)
    ensures |s.lock| == |s.procs| && Fine(s, q) && Claims(s.lock, q, s.procs[q].pc) && IdInv(s)
  {
  }

  lemma AllRelated(s: State)
    requires |s.procs| > 0 && s.procs[INIT].id == 0 && forall q :: In(q, |s.procs|) ==> Elder(s, q) && Was(s, q)
    ensures Related(s)
  {
  }

  ghost predicate StillPassed(pc: Pc, pc': Pc) {
    forall q: int :: Passed(pc, q) ==> Passed(pc', q)
  }

  lemma QuietRelated(s: State, s': State, p: int)
    requires Related(s) && Quiet(s, s', p) && Was(s', p) && StillPassed(s.procs[p].pc, s'.procs[p].pc)
    ensures Related(s')
  {
    hide Elder, Was;
    forall q | In(q, |s'.procs|) ensures Elder(s', q) && Was(s', q) {
      QuietKin(s, s', p, q);
    }
  }

  lemma WokenRelated(s: State, t: int)
    requires Related(s) && In(t, |s.procs|)
    ensures Related(Woken(s, t))
  {
    hide Elder, Was;
    var s' := Woken(s, t);
    forall q | In(q, |s'.procs|) ensures Elder(s', q) && Was(s', q) {
      WokenKin(s, t, q);
    }
  }

  lemma CreateRelated(s: State, s': State, p: int, i: int)
    requires Inv(s) && Related(s) && Creates(s, s', p, i)
    ensures Related(s')
  {
    Known(s, INIT);
    hide Inv, Elder, Was, Knows, Watched, IdInv, Related;
    Kindred(s, INIT);
    forall q | In(q, |s.procs|) ensures Elder(s', q) && Was(s', q) {
      Known(s, q);
      Kindred(s, q);
      CreateKin(s, s', p, i, q);
    }
    AgeOfInit(s);
    AllRelated(s');
  }

  lemma AgeOfInit(s: State)
    requires Related(s)
    ensures s.procs[INIT].id == 0
  {
  }

  lemma HandRelated(s: State, s': State, p: int, i: int)
    requires Inv(s) && Related(s) && Hands(s, s', p, i) && s.procs[p].pc.Given? && s.procs[p].pc.i == i
    requires s'.procs[p].pc == Give(s.procs[p].pc.was, i + 1)
    ensures Related(s')
  {
    Known(s, INIT);
    Known(s, i);
    AgeOfInit(s);
    hide Inv, Elder, Was, Knows, Watched, IdInv, Related;
    forall q | In(q, |s.procs|) ensures Elder(s', q) && Was(s', q) {
      Known(s, q);
      Kindred(s, q);
      HandKin(s, s', p, i, q);
    }
    AllRelated(s');
  }

  lemma DieRelated(s: State, s': State, p: int)
    requires Related(s) && Dies(s, s', p) && Used(s.procs[p])
    ensures Related(s')
  {
    hide Elder, Was;
    forall q | In(q, |s'.procs|) ensures Elder(s', q) && Was(s', q) {
      DieKin(s, s', p, q);
    }
  }

  lemma SleepRelated(s: State, s': State, p: int)
    requires Related(s) && Sleeps(s, s', p) && Used(s.procs[p])
    ensures Related(s')
  {
    hide Elder, Was;
    forall q | In(q, |s'.procs|) ensures Elder(s', q) && Was(s', q) {
      SleepKin(s, s', p, q);
    }
  }

  lemma ReapRelated(s: State, s': State, p: int, i: int)
    requires Inv(s) && Related(s) && Reaps(s, s', p, i)
    ensures Related(s')
  {
    Known(s, i);
    AgeOfInit(s);
    hide Inv, Elder, Was, Knows, Watched, IdInv, Related;
    forall q | In(q, |s.procs|) ensures Elder(s', q) && Was(s', q) {
      Known(s, q);
      Kindred(s, q);
      ReapKin(s, s', p, i, q);
    }
    AllRelated(s');
  }

  /** What exit remembers when it reads its parent. */
  lemma TakeWas(s: State, p: int, x: Choice)
    requires Enabled(s, p, x) && Taking(s.procs[p].pc) && p != INIT && Used(s.procs[p]) && ParentOk(s, p) && Elder(s, p)
    requires Was(s, p) && forall q :: In(q, |s.procs|) ==> Elder(s, q) && ParentOk(s, q)
    ensures Was(DoExit(s, p), p)
  {
    var s' := DoExit(s, p);
    var was := s.procs[p].parent;
    assert Elder(s, was) && ParentOk(s, was);
  }

  lemma BeginRelated(s: State, p: int, x: Choice)
    requires Inv(s) && Related(s) && Enabled(s, p, x) && s.procs[p].pc.Free?
    ensures Related(Do(s, p, x))
  {
    hide Inv, Related;
    QuietRelated(s, Do(s, p, x), p);
  }

  lemma ForkRelated(s: State, p: int, x: Choice)
    requires Inv(s) && Related(s) && Enabled(s, p, x) && Forking(s.procs[p].pc)
    ensures Related(DoFork(s, p, x))
  {
    hide Inv, Related, Creates, Knows, Watched, IdInv;
    var pc, s' := s.procs[p].pc, DoFork(s, p, x);
    Known(s, p);
    ForkQuiet(s, p, x);
    if pc.Slot? && s.procs[pc.i].state == UNUSED && !x.Fail? {
      CreateRelated(s, s', p, pc.i);
    } else {
      QuietRelated(s, s', p);
    }
  }

  lemma TakeRelated(s: State, p: int, x: Choice)
    requires Inv(s) && Related(s) && Enabled(s, p, x) && Taking(s.procs[p].pc)
    ensures Related(DoExit(s, p))
  {
    hide Inv, Related, Elder, Was, Quiet, Placed, Knows, Watched, IdInv;
    var s' := DoExit(s, p);
    Known(s, p);
    Kindred(s, p);
    forall q | In(q, |s.procs|) ensures Elder(s, q) && ParentOk(s, q) {
      Known(s, q);
      Kindred(s, q);
    }
    TakeQuiet(s, p, x);
    TakeWas(s, p, x);
    WokenRelated(s, INIT);
    QuietRelated(if s.procs[p].pc.Exit2? then Woken(s, INIT) else s, s', p);
  }

  lemma GiveRelated(s: State, p: int, x: Choice)
    requires Inv(s) && Related(s) && Enabled(s, p, x) && Giving(s.procs[p].pc)
    ensures Related(DoGive(s, p))
  {
    hide Inv, Related, Elder, Left, Quiet, Hands, Placed, Watched, IdInv;
    var s' := DoGive(s, p);
    Known(s, p);
    Kindred(s, p);
    GiveQuiet(s, p, x);
    if s.procs[p].pc.Given? {
      HandRelated(s, s', p, s.procs[p].pc.i);
    } else {
      GiveWas(s, p, x);
      QuietRelated(s, s', p);
    }
  }

  lemma GiveWas(s: State, p: int, x: Choice)
    requires Enabled(s, p, x) && (s.procs[p].pc.Give? || s.procs[p].pc.Saw?) && Was(s, p)
    ensures Was(DoGive(s, p), p) && StillPassed(s.procs[p].pc, DoGive(s, p).procs[p].pc)
  {
  }

  lemma DyingRelated(s: State, p: int, x: Choice)
    requires Inv(s) && Related(s) && Enabled(s, p, x) && Dying(s.procs[p].pc)
    ensures Related(DoDie(s, p))
  {
    hide Inv, Related, Elder, Left, Quiet, Dies, Placed, Knows, Watched, IdInv;
    var pc, s' := s.procs[p].pc, DoDie(s, p);
    Known(s, p);
    DyingQuiet(s, p, x);
    if pc.Exit8? {
      DieRelated(s, s', p);
    } else if pc.Exit7? {
      WokenRelated(s, pc.was);
      QuietRelated(Woken(s, pc.was), s', p);
    } else {
      QuietRelated(s, s', p);
    }
  }

  lemma WaitRelated(s: State, p: int, x: Choice)
    requires Inv(s) && Related(s) && Enabled(s, p, x)
    requires var pc := s.procs[p].pc; pc.Wait1? || pc.Asleep? || pc.Scan? || pc.Found?
    ensures Related(DoWait(s, p, x))
  {
    hide Inv, Related, Elder, Left, Quiet, Sleeps, Placed, Knows, Watched, IdInv;
    var s' := DoWait(s, p, x);
    Known(s, p);
    WaitQuiet(s, p, x);
    if s'.procs[p].state == SLEEPING {
      SleepRelated(s, s', p);
    } else {
      QuietRelated(s, s', p);
    }
  }

  lemma ChildRelated(s: State, p: int, x: Choice)
    requires Inv(s) && Related(s) && Enabled(s, p, x) && s.procs[p].pc.Child?
    ensures Related(DoWait(s, p, x))
  {
    hide Inv, Related, Elder, Left, Quiet, Reaps, Placed, Knows, Watched, IdInv;
    var i, s' := s.procs[p].pc.i, DoWait(s, p, x);
    Known(s, p);
    ChildQuiet(s, p, x);
    if s.procs[i].state == ZOMBIE && !x.Fail? {
      ReapRelated(s, s', p, i);
    } else {
      QuietRelated(s, s', p);
    }
  }

  // ----- what each step does to locks

  lemma ForkOwned(s: State, p: int, x: Choice, j: int)
    requires |s.lock| == |s.procs| && Enabled(s, p, x) && Forking(s.procs[p].pc) && In(j, |s.lock|) && Owned(s, j)
    requires forall q :: In(q, |s.procs|) ==> StateOk(q, s.procs[q])
    ensures |DoFork(s, p, x).lock| == |s.lock| && Owned(DoFork(s, p, x), j)
  {
  }

  lemma TakeOwned(s: State, p: int, x: Choice, j: int)
    requires |s.lock| == |s.procs| && Enabled(s, p, x) && Taking(s.procs[p].pc) && In(j, |s.lock|) && Owned(s, j)
    ensures |DoExit(s, p).lock| == |s.lock| && Owned(DoExit(s, p), j)
  {
  }

  lemma GiveOwned(s: State, p: int, x: Choice, j: int)
    requires |s.lock| == |s.procs| && Enabled(s, p, x) && Giving(s.procs[p].pc) && In(j, |s.lock|) && Owned(s, j)
    requires Claims(s.lock, p, s.procs[p].pc)
    ensures |DoGive(s, p).lock| == |s.lock| && Owned(DoGive(s, p), j)
  {
  }

  lemma DyingOwned(s: State, p: int, x: Choice, j: int)
    requires |s.lock| == |s.procs| && Enabled(s, p, x) && Dying(s.procs[p].pc) && In(j, |s.lock|) && Owned(s, j)
    requires Claims(s.lock, p, s.procs[p].pc)
    ensures |DoDie(s, p).lock| == |s.lock| && Owned(DoDie(s, p), j)
  {
  }

  lemma WaitOwned(s: State, p: int, x: Choice, j: int)
    requires |s.lock| == |s.procs| && Enabled(s, p, x) && In(j, |s.lock|) && Owned(s, j)
    requires var pc := s.procs[p].pc; pc.Wait1? || pc.Asleep? || pc.Scan? || pc.Found?
    ensures |DoWait(s, p, x).lock| == |s.lock| && Owned(DoWait(s, p, x), j)
  {
  }

  lemma ChildOwned(s: State, p: int, x: Choice, j: int)
    requires |s.lock| == |s.procs| && Enabled(s, p, x) && s.procs[p].pc.Child? && In(j, |s.lock|) && Owned(s, j)
    requires Claims(s.lock, p, s.procs[p].pc)
    requires forall q :: In(q, |s.procs|) ==> StateOk(q, s.procs[q]) && Claims(s.lock, q, s.procs[q].pc)
    ensures |DoWait(s, p, x).lock| == |s.lock| && Owned(DoWait(s, p, x), j)
  {
    var i := s.procs[p].pc.i;
    assert StateOk(i, s.procs[i]) && Claims(s.lock, i, s.procs[i].pc);
  }

  lemma StepOwned(s: State, p: int, x: Choice, j: int)
    requires Inv(s) && Enabled(s, p, x) && In(j, |s.lock|) && Owned(s, j)
    ensures |Do(s, p, x).lock| == |s.lock| && Owned(Do(s, p, x), j)
  {
    hide Inv, Owned, DoFork, DoExit, DoGive, DoDie, DoWait, StateOk, Claims, Fine, IdInv;
    forall q | In(q, |s.procs|) ensures StateOk(q, s.procs[q]) && Claims(s.lock, q, s.procs[q].pc) {
      FinePlaced(s, q);
    }
    FinePlaced(s, p);
    var pc := s.procs[p].pc;
    if pc.Free? {
      FreeOwned(s, p, x, j);
    } else if Forking(pc) {
      ForkOwned(s, p, x, j);
    } else if Taking(pc) {
      TakeOwned(s, p, x, j);
    } else if Giving(pc) {
      GiveOwned(s, p, x, j);
    } else if Dying(pc) {
      DyingOwned(s, p, x, j);
    } else if pc.Child? {
      ChildOwned(s, p, x, j);
    } else {
      WaitOwned(s, p, x, j);
    }
  }

  lemma FinePlaced(s: State, q: int)
    requires Inv(s) && In(q, |s.procs|)
    ensures |s.lock| == |s.procs| && StateOk(q, s.procs[q]) && Claims(s.lock, q, s.procs[q].pc)
  {
  }

  lemma FreeOwned(s: State, p: int, x: Choice, j: int)
    requires |s.lock| == |s.procs| && Enabled(s, p, x) && s.procs[p].pc.Free? && In(j, |s.lock|) && Owned(s, j)
    ensures |Do(s, p, x).lock| == |s.lock| && Owned(Do(s, p, x), j)
  {
  }

  // ----- every run

  lemma StepRelated(s: State, p: int, x: Choice)
    requires Inv(s) && Related(s) && Enabled(s, p, x)
    ensures Related(Do(s, p, x))
  {
    hide Inv, Related, DoFork, DoExit, DoGive, DoDie, DoWait;
    var pc := s.procs[p].pc;
    if pc.Free? {
      BeginRelated(s, p, x);
    } else if Forking(pc) {
      ForkRelated(s, p, x);
    } else if Taking(pc) {
      TakeRelated(s, p, x);
    } else if Giving(pc) {
      GiveRelated(s, p, x);
    } else if Dying(pc) {
      DyingRelated(s, p, x);
    } else if pc.Child? {
      ChildRelated(s, p, x);
    } else {
      WaitRelated(s, p, x);
    }
  }

  lemma StepKin(s: State, s': State)
    requires Inv(s) && Related(s) && Owners(s) && Step(s, s')
    ensures Related(s') && Owners(s')
  {
    hide Inv, Related, Owned, Enabled, Do;
    if Killed(s, s') {
      var p :| 0 <= p < |s.procs| == |s.lock| && s.lock[p] == -1 && s' == Woken(s, p);
      WokenRelated(s, p);
      forall j | In(j, |s'.lock|) ensures Owned(s', j) {
        WokenOwned(s, p, j);
      }
    } else {
      var p, x :| Enabled(s, p, x) && s' == Do(s, p, x);
      StepRelated(s, p, x);
      SameLocks(s, p, x);
      forall j | In(j, |s'.lock|) ensures Owned(s', j) {
        StepOwned(s, p, x, j);
      }
    }
  }

  lemma WokenOwned(s: State, t: int, j: int)
    requires In(t, |s.procs|) && In(j, |s.lock|) && Owned(s, j)
    ensures |Woken(s, t).lock| == |s.lock| && Owned(Woken(s, t), j)
  {
  }

  lemma SameLocks(s: State, p: int, x: Choice)
    requires Enabled(s, p, x)
    ensures |Do(s, p, x).lock| == |s.lock|
  {
  }

  lemma {:induction false} RunKin(ss: seq<State>)
    requires Run(ss)
    ensures var s := ss[|ss| - 1]; Inv(s) && Related(s) && Owners(s)
  {
    hide Inv, Related, Owners, Step, Init;
    RunInv(ss);
    if |ss| == 1 {
      InitKin(ss[0]);
    } else {
      var n := |ss| - 1;
      Shorter(ss);
      RunKin(ss[..n]);
      StepKin(ss[n - 1], ss[n]);
    }
  }

  lemma InitKin(s: State)
    requires Init(s)
    ensures Related(s) && Owners(s)
  {
  }

  // ----- no cycle without a stale process

  /** q is blocked while it holds lock w: the lock it waits for is a younger process's, unless q is stale. */
  lemma Younger(s: State, q: int, r: int, w: int)
    requires Inv(s) && Related(s) && Owners(s) && Blocked(s, q, r) && !Stale(s, q) && In(w, |s.lock|) && s.lock[w] == q
    ensures s.procs[w].id < s.procs[Awaits(q, s.procs[q].pc)].id
  {
    Known(s, q);
    Kindred(s, q);
    assert Owned(s, w);
    hide Inv, Related, Owners, Watched, IdInv;
    var pc := s.procs[q].pc;
    if pc.Saw? || pc.Found? {
      Known(s, pc.i);
      Kindred(s, pc.i);
    }
  }

  /** The id of the process in whose slot is the lock that process q waits for. */
  ghost function Wanted(s: State, q: int): int
    requires In(q, |s.procs|) && In(Awaits(q, s.procs[q].pc), |s.procs|)
  {
    s.procs[Awaits(q, s.procs[q].pc)].id
  }

  lemma YoungerNext(s: State, p: int, q: int, r: int)
    requires Inv(s) && Related(s) && Owners(s) && Blocked(s, p, q) && Blocked(s, q, r) && !Stale(s, q)
    ensures In(p, |s.procs|) && In(Awaits(p, s.procs[p].pc), |s.procs|)
    ensures In(q, |s.procs|) && In(Awaits(q, s.procs[q].pc), |s.procs|)
    ensures Wanted(s, p) < Wanted(s, q)
  {
    Known(s, q);
    hide Inv, Related, Owners, Stale;
    Younger(s, q, r, Awaits(p, s.procs[p].pc));
  }

  lemma {:induction false} Climbs(s: State, c: seq<int>, k: int)
    requires Inv(s) && Related(s) && Owners(s) && Cycle(s, c) && 0 <= k < |c|
    requires forall q :: q in c ==> !Stale(s, q)
    ensures In(c[0], |s.procs|) && In(Awaits(c[0], s.procs[c[0]].pc), |s.procs|)
    ensures In(c[k], |s.procs|) && In(Awaits(c[k], s.procs[c[k]].pc), |s.procs|)
    ensures Wanted(s, c[0]) + k <= Wanted(s, c[k])
    decreases k
  {
    hide Inv, Related, Owners, Stale, Blocked, Awaits, Wanted;
    assert c[k] in c;
    if k > 0 {
      Climbs(s, c, k - 1);
      assert After(c, k - 1) == c[k];
      YoungerNext(s, c[k - 1], c[k], After(c, k));
    } else {
      BlockedIn(s, c[0], After(c, 0));
    }
  }

  lemma BlockedIn(s: State, p: int, q: int)
    requires Inv(s) && Blocked(s, p, q)
    ensures In(p, |s.procs|) && In(Awaits(p, s.procs[p].pc), |s.procs|)
  {
  }

  /** In every run, processes that block each other in a circle include one that exits with the lock of a slot that is
      not its parent's any more. */
  lemma CycleHasStale(ss: seq<State>, c: seq<int>)
    requires Run(ss) && Cycle(ss[|ss| - 1], c)
    ensures exists q :: q in c && Stale(ss[|ss| - 1], q)
  {
    var s := ss[|ss| - 1];
    RunKin(ss);
    hide Run, Inv, Related, Owners, Stale, Blocked, Awaits, Wanted;
    if forall q :: q in c ==> !Stale(s, q) {
      var n := |c| - 1;
      Climbs(s, c, n);
      assert c[0] in c && After(c, n) == c[0];
      YoungerNext(s, c[n], c[0], After(c, 0));
    }
  }

  // ----- two processes that block each other

  ghost predicate Mutual(s: State, p: int, q: int) {
    Blocked(s, p, q) && Blocked(s, q, p)
  }

  /** a has a lock that b wants and wants one that b has: a is about to lock itself, or its child, and b a child of its
      own, and the slot of one's former parent is by now a descendant of the other. */
  predicate Crossed(pc: Pc, pc': Pc, a: int, b: int) {
    || (pc.Exit6? && pc'.Saw? && pc'.was == a && pc'.i == pc.was)
    || (pc.Saw? && pc'.Found? && pc.i == b && pc'.i == pc.was)
    || (pc.Saw? && pc'.Saw? && pc.i == pc'.was && pc'.i == pc.was)
  }

  lemma CrossedBlocks(s: State, a: int, b: int)
    requires Inv(s) && In(a, |s.procs|) && In(b, |s.procs|) && Crossed(s.procs[a].pc, s.procs[b].pc, a, b)
    ensures Mutual(s, a, b)
  {
    Known(s, a);
    Known(s, b);
  }

  lemma NotByItself(s: State, p: int)
    requires Inv(s) && Related(s) && Owners(s)
    ensures !Blocked(s, p, p)
  {
    if In(p, |s.procs|) {
      Known(s, p);
      Kindred(s, p);
    }
  }

  lemma BlockedCrossed(s: State, p: int, q: int)
    requires Inv(s) && Related(s) && Owners(s) && Mutual(s, p, q) && p != q
    ensures Crossed(s.procs[p].pc, s.procs[q].pc, p, q) || Crossed(s.procs[q].pc, s.procs[p].pc, q, p)
  {
    Known(s, p);
    Known(s, q);
    Kindred(s, p);
    Kindred(s, q);
    assert Owned(s, Awaits(p, s.procs[p].pc)) && Owned(s, Awaits(q, s.procs[q].pc));
    hide Inv, Related, Owners, Watched, IdInv;
  }

  /** In every run, two processes block each other if and only if their positions are crossed. */
  lemma MutualIff(ss: seq<State>, p: int, q: int)
    requires Run(ss) && In(p, |ss[|ss| - 1].procs|) && In(q, |ss[|ss| - 1].procs|)
    ensures var s := ss[|ss| - 1];
            Mutual(s, p, q) <==>
              Crossed(s.procs[p].pc, s.procs[q].pc, p, q) || Crossed(s.procs[q].pc, s.procs[p].pc, q, p)
  {
    var s := ss[|ss| - 1];
    RunKin(ss);
    hide Run, Inv, Related, Owners, Blocked, Crossed;
    if Mutual(s, p, q) {
      if p == q {
        NotByItself(s, p);
      } else {
        BlockedCrossed(s, p, q);
      }
    }
    if Crossed(s.procs[p].pc, s.procs[q].pc, p, q) {
      CrossedBlocks(s, p, q);
    }
    if Crossed(s.procs[q].pc, s.procs[p].pc, q, p) {
      CrossedBlocks(s, q, p);
    }
  }

  // ----- for good

  /** p is where it was, and not asleep. */
  ghost predicate Stays(s: State, s': State, p: int)
    requires In(p, |s.procs|)
  {
    |s'.procs| == |s.procs| && s'.procs[p].pc == s.procs[p].pc && s'.procs[p].state == ALIVE
  }

  lemma QuietStays(s: State, s': State, r: int, p: int)
    requires Quiet(s, s', r) && In(p, |s.procs|) && p != r && s.procs[p].state == ALIVE
    ensures Stays(s, s', p)
  {
  }

  lemma WokenStays(s: State, t: int, p: int)
    requires In(t, |s.procs|) && In(p, |s.procs|) && s.procs[p].state == ALIVE
    ensures Stays(s, Woken(s, t), p) && Woken(s, t).lock == s.lock
  {
  }

  lemma BeginStays(s: State, r: int, x: Choice, p: int)
    requires Inv(s) && Enabled(s, r, x) && In(p, |s.procs|) && p != r && s.procs[p].state == ALIVE
    requires s.procs[r].pc.Free?
    ensures Stays(s, Do(s, r, x), p) && LockMove(s.lock, Do(s, r, x).lock, r)
  {
  }

  lemma ForkStays(s: State, r: int, x: Choice, p: int)
    requires Inv(s) && Enabled(s, r, x) && In(p, |s.procs|) && p != r && s.procs[p].state == ALIVE
    requires Forking(s.procs[r].pc)
    ensures Stays(s, DoFork(s, r, x), p) && LockMove(s.lock, DoFork(s, r, x).lock, r)
  {
    hide Inv, DoFork, Placed, Fine, LockMove;
    ForkMoves(s, r, x);
    FinePlaced(s, r);
    ForkQuiet(s, r, x);
    var pc := s.procs[r].pc;
    if !(pc.Slot? && s.procs[pc.i].state == UNUSED && !x.Fail?) {
      QuietStays(s, DoFork(s, r, x), r, p);
    }
  }

  lemma ForkMoves(s: State, r: int, x: Choice)
    requires Inv(s) && Enabled(s, r, x) && Forking(s.procs[r].pc)
    ensures LockMove(s.lock, DoFork(s, r, x).lock, r)
  {
    hide StateInv, FamilyInv, WaitInv, IdInv, DoFork, LockMove;
    ForkOrderly(s, r, x);
  }

  lemma TakeStays(s: State, r: int, x: Choice, p: int)
    requires Inv(s) && Enabled(s, r, x) && In(p, |s.procs|) && p != r && s.procs[p].state == ALIVE
    requires Taking(s.procs[r].pc)
    ensures Stays(s, DoExit(s, r), p) && LockMove(s.lock, DoExit(s, r).lock, r)
  {
    hide Inv, DoExit, Placed, LockMove, Woken, Quiet, Knows, Watched, IdInv, Claims;
    TakeMoves(s, r, x);
    Known(s, r);
    TakeQuiet(s, r, x);
    WokenStays(s, INIT, p);
    QuietStays(if s.procs[r].pc.Exit2? then Woken(s, INIT) else s, DoExit(s, r), r, p);
  }

  lemma TakeMoves(s: State, r: int, x: Choice)
    requires Inv(s) && Enabled(s, r, x) && Taking(s.procs[r].pc)
    ensures LockMove(s.lock, DoExit(s, r).lock, r)
  {
    hide StateInv, FamilyInv, WaitInv, IdInv, DoExit, LockMove;
    TakeOrderly(s, r, x);
  }

  lemma GiveStays(s: State, r: int, x: Choice, p: int)
    requires Inv(s) && Enabled(s, r, x) && In(p, |s.procs|) && p != r && s.procs[p].state == ALIVE
    requires Giving(s.procs[r].pc)
    ensures Stays(s, DoGive(s, r), p) && LockMove(s.lock, DoGive(s, r).lock, r)
  {
    hide Inv, DoGive, Placed, LockMove, Quiet, Watched, IdInv, Knows, Claims;
    GiveMoves(s, r, x);
    Known(s, r);
    GiveQuiet(s, r, x);
    if !s.procs[r].pc.Given? {
      QuietStays(s, DoGive(s, r), r, p);
    }
  }

  lemma GiveMoves(s: State, r: int, x: Choice)
    requires Inv(s) && Enabled(s, r, x) && Giving(s.procs[r].pc)
    ensures LockMove(s.lock, DoGive(s, r).lock, r)
  {
    hide StateInv, FamilyInv, WaitInv, IdInv, DoGive, LockMove;
    GiveOrderly(s, r, x);
  }

  lemma DieStays(s: State, r: int, x: Choice, p: int)
    requires Inv(s) && Enabled(s, r, x) && In(p, |s.procs|) && p != r && s.procs[p].state == ALIVE
    requires Dying(s.procs[r].pc)
    ensures Stays(s, DoDie(s, r), p) && LockMove(s.lock, DoDie(s, r).lock, r)
  {
    hide Inv, DoDie, Placed, LockMove, Woken, Quiet, Watched, IdInv, Knows;
    DieMoves(s, r, x);
    Known(s, r);
    DyingQuiet(s, r, x);
    var pc := s.procs[r].pc;
    if pc.Exit7? {
      WokenStays(s, pc.was, p);
      QuietStays(Woken(s, pc.was), DoDie(s, r), r, p);
    } else if !pc.Exit8? {
      QuietStays(s, DoDie(s, r), r, p);
    }
  }

  lemma DieMoves(s: State, r: int, x: Choice)
    requires Inv(s) && Enabled(s, r, x) && Dying(s.procs[r].pc)
    ensures LockMove(s.lock, DoDie(s, r).lock, r)
  {
    hide StateInv, FamilyInv, WaitInv, IdInv, DoDie, LockMove;
    DieOrderly(s, r, x);
  }

  lemma WaitStays(s: State, r: int, x: Choice, p: int)
    requires Inv(s) && Enabled(s, r, x) && In(p, |s.procs|) && p != r && s.procs[p].state == ALIVE
    requires var pc := s.procs[r].pc; pc.Wait1? || pc.Asleep? || pc.Scan? || pc.Found?
    ensures Stays(s, DoWait(s, r, x), p) && LockMove(s.lock, DoWait(s, r, x).lock, r)
  {
    hide Inv, DoWait, Placed, LockMove, Quiet, Watched, IdInv, Knows, Claims;
    WaitMoves(s, r, x);
    Known(s, r);
    WaitQuiet(s, r, x);
    if DoWait(s, r, x).procs[r].state != SLEEPING {
      QuietStays(s, DoWait(s, r, x), r, p);
    }
  }

  lemma WaitMoves(s: State, r: int, x: Choice)
    requires Inv(s) && Enabled(s, r, x)
    requires var pc := s.procs[r].pc; pc.Wait1? || pc.Asleep? || pc.Scan? || pc.Found? || pc.Child?
    ensures LockMove(s.lock, DoWait(s, r, x).lock, r)
  {
    hide StateInv, FamilyInv, WaitInv, IdInv, DoWait, LockMove;
    if s.procs[r].pc.Child? {
      ChildOrderly(s, r, x);
    } else {
      WaitOrderly(s, r, x);
    }
  }

  lemma ChildStays(s: State, r: int, x: Choice, p: int)
    requires Inv(s) && Enabled(s, r, x) && In(p, |s.procs|) && p != r && s.procs[p].state == ALIVE
    requires s.procs[r].pc.Child?
    ensures Stays(s, DoWait(s, r, x), p) && LockMove(s.lock, DoWait(s, r, x).lock, r)
  {
    hide Inv, DoWait, Placed, LockMove, Quiet, Watched, IdInv, Knows;
    WaitMoves(s, r, x);
    Known(s, r);
    ChildQuiet(s, r, x);
    var i := s.procs[r].pc.i;
    if !(s.procs[i].state == ZOMBIE && !x.Fail?) {
      QuietStays(s, DoWait(s, r, x), r, p);
    }
  }

  lemma OtherStays(s: State, r: int, x: Choice, p: int)
    requires Inv(s) && Enabled(s, r, x) && In(p, |s.procs|) && p != r && s.procs[p].state == ALIVE
    ensures Stays(s, Do(s, r, x), p) && LockMove(s.lock, Do(s, r, x).lock, r)
  {
    hide Inv, DoFork, DoExit, DoGive, DoDie, DoWait, Stays, LockMove;
    var pc := s.procs[r].pc;
    if pc.Free? {
      BeginStays(s, r, x, p);
    } else if Forking(pc) {
      ForkStays(s, r, x, p);
    } else if Taking(pc) {
      TakeStays(s, r, x, p);
    } else if Giving(pc) {
      GiveStays(s, r, x, p);
    } else if Dying(pc) {
      DieStays(s, r, x, p);
    } else if pc.Child? {
      ChildStays(s, r, x, p);
    } else {
      WaitStays(s, r, x, p);
    }
  }

  /** In every run, two processes that block each other do so after every further step. */
  lemma MutualStays(ss: seq<State>, s': State, p: int, q: int)
    requires Run(ss) && Step(ss[|ss| - 1], s') && Mutual(ss[|ss| - 1], p, q)
    ensures Mutual(s', p, q)
  {
    var s := ss[|ss| - 1];
    RunKin(ss);
    MutualAlive(s, p, q);
    hide Run, Inv, Related, Owners, Do, Enabled, Blocked, Stays, LockMove, Woken;
    BlockedOther(s, p, q);
    BlockedOther(s, q, p);
    var r := -2;
    if Killed(s, s') {
      var t :| 0 <= t < |s.procs| == |s.lock| && s.lock[t] == -1 && s' == Woken(s, t);
      WokenStays(s, t, p);
      WokenStays(s, t, q);
      LockSame(s.lock, r);
    } else {
      var x;
      r, x :| Enabled(s, r, x) && s' == Do(s, r, x);
      NotMoving(s, p, q, r, x);
      OtherStays(s, r, x, p);
      OtherStays(s, r, x, q);
    }
    BlockedKept(s, s', p, q, r);
    BlockedKept(s, s', q, p, r);
  }

  lemma BlockedOther(s: State, p: int, q: int)
    requires Blocked(s, p, q)
    ensures In(p, |s.procs|) && In(q, |s.procs|)
  {
  }

  lemma LockSame(lock: seq<int>, r: int)
    ensures LockMove(lock, lock, r)
  {
  }

  lemma BlockedKept(s: State, s': State, p: int, q: int, r: int)
    requires Blocked(s, p, q) && Stays(s, s', p) && LockMove(s.lock, s'.lock, r) && q != r
    ensures Blocked(s', p, q)
  {
  }

  lemma MutualAlive(s: State, p: int, q: int)
    requires Inv(s) && Related(s) && Owners(s) && Mutual(s, p, q)
    ensures |s.lock| == |s.procs| && s.procs[p].state == ALIVE && s.procs[q].state == ALIVE && p != q
  {
    NotByItself(s, p);
    FinePlaced(s, p);
    FinePlaced(s, q);
  }

  lemma NotMoving(s: State, p: int, q: int, r: int, x: Choice)
    requires |s.lock| == |s.procs| && Mutual(s, p, q) && Enabled(s, r, x)
    ensures r != p && r != q
  {
    if r == p {
      BlockedStays(s, p, q, x);
    }
    if r == q {
      BlockedStays(s, q, p, x);
    }
  }

  // ----- a run

  ghost function Reaped(s: State, p: int, i: int): State
    requires In(p, |s.procs|) && In(i, |s.procs|)
  {
    At(Put(s, i, NoProc()), p, Free).(reaped := s.reaped + [s.procs[i].id])
  }

  /** wait by init finds the zombie in slot 1. */
  lemma WaitReaps(s: State)
    requires Reach(s) && Unlocked(s) && |s.procs| > 1 && s.procs[INIT].state == ALIVE && s.procs[INIT].pc == Free
    requires s.procs[INIT].parent == -1 && s.procs[1].parent == INIT && s.procs[1].state == ZOMBIE
    ensures Reach(Reaped(s, INIT, 1))
  {
    hide Reach;
    ReachStep(s, INIT, Wait);
    var s1 := Do(s, INIT, Wait);
    ReachStep(s1, INIT, Ok);
    var s2 := At(s, INIT, Scan(0, false)).(lock := s.lock[INIT := INIT]);
    assert Do(s1, INIT, Ok) == s2;
    ScanReaps(s, s2);
  }

  lemma ScanReaps(s: State, t: State)
    requires Unlocked(s) && |s.procs| > 1 && s.procs[INIT].state == ALIVE && Reach(t)
    requires s.procs[INIT].parent == -1 && s.procs[1].parent == INIT && s.procs[1].state == ZOMBIE
    requires t == At(s, INIT, Scan(0, false)).(lock := s.lock[INIT := INIT])
    ensures Reach(Reaped(s, INIT, 1))
  {
    hide Reach;
    ReachStep(t, INIT, Ok);
    var t1 := At(s, INIT, Scan(1, false)).(lock := s.lock[INIT := INIT]);
    assert Do(t, INIT, Ok) == t1;
    ReachStep(t1, INIT, Ok);
    FoundReaps(s, Do(t1, INIT, Ok));
  }

  lemma FoundReaps(s: State, t: State)
    requires Unlocked(s) && |s.procs| > 1 && s.procs[INIT].state == ALIVE && s.procs[1].state == ZOMBIE && Reach(t)
    requires t == At(s, INIT, Found(1)).(lock := s.lock[INIT := INIT])
    ensures Reach(Reaped(s, INIT, 1))
  {
    hide Reach;
    ReachStep(t, INIT, Ok);
    var t1 := Do(t, INIT, Ok);
    assert t1 == At(s, INIT, Child(1)).(lock := s.lock[INIT := INIT][1 := INIT]);
    ReachStep(t1, INIT, Ok);
    assert s.lock[INIT := INIT][1 := INIT][1 := -1][INIT := -1] == s.lock;
    assert Do(t1, INIT, Ok) == Reaped(s, INIT, 1);
  }

  ghost function Grown(): State {
    State([Live(-1, 0), Live(0, 1), Live(1, 2), Live(2, 3)], [-1, -1, -1, -1], 4, [])
  }

  lemma GrownReach()
    ensures Reach(Grown())
  {
    ForksReach();
    hide Reach;
    var s2 := State([Live(-1, 0), Live(0, 1), Live(1, 2), NoProc()], [-1, -1, -1, -1], 3, []);
    ForkReach(s2, 2, 3);
    assert Created(s2, 2, 3) == Grown();
  }

  /** Process 2 has begun to exit and read that its parent is 1. */
  ghost function ReadParent(): State { At(Grown(), 2, Exit5(1)) }

  lemma ReadParentReach()
    ensures Reach(ReadParent())
  {
    GrownReach();
    hide Reach;
    var s0 := Grown();
    ExitBegins(s0, 2);
    var s1 := At(s0, 2, Exit3);
    ReachStep(s1, 2, Ok);
    var s2 := Do(s1, 2, Ok);
    ReachStep(s2, 2, Ok);
    assert s0.lock[2 := 2][2 := -1] == s0.lock;
    assert Do(s2, 2, Ok) == ReadParent();
  }

  ghost function Orphan2(): Proc { Proc(ALIVE, 0, Exit5(1), 2, true) }

  ghost function Zombie1(): Proc { Proc(ZOMBIE, 0, Dead, 1, false) }

  /** Then process 1 exits, init reaps it, and 3 forks into slot 1. */
  ghost function Reused(): State {
    State([Live(-1, 0), Live(3, 4), Orphan2(), Live(2, 3)], [-1, -1, -1, -1], 5, [1])
  }

  lemma ExitOfOne()
    ensures Reach(State([Live(-1, 0), Zombie1(), Orphan2(), Live(2, 3)], [-1, -1, -1, -1], 4, []))
  {
    ReadParentReach();
    hide Reach;
    var s0 := ReadParent();
    ExitBegins(s0, 1);
    var s1 := At(s0, 1, Exit3);
    ExitLocks(s1, 1);
    var s2 := At(s1, 1, Give(0, 0)).(lock := s1.lock[0 := 1][1 := 1]);
    GiveLoop(s2, 1, 0, 0, 2);
    var s3 := At(s2, 1, Give(0, 2));
    HandReach(s3, 1, 0, 2);
    var s4 := Handed(s3, 1, 0, 2);
    GiveLoop(s4, 1, 0, 3, 4);
    var s5 := At(s4, 1, Give(0, 4));
    ExitEnds(s5, 1, 0);
    assert Ended(s5, 1, 0) == State([Live(-1, 0), Zombie1(), Orphan2(), Live(2, 3)], [-1, -1, -1, -1], 4, []);
  }

  lemma ReusedReach()
    ensures Reach(Reused())
  {
    ExitOfOne();
    hide Reach;
    var s0 := State([Live(-1, 0), Zombie1(), Orphan2(), Live(2, 3)], [-1, -1, -1, -1], 4, []);
    WaitReaps(s0);
    var s1 := Reaped(s0, 0, 1);
    assert s1 == State([Live(-1, 0), NoProc(), Orphan2(), Live(2, 3)], [-1, -1, -1, -1], 4, [1]);
    ForkReach(s1, 3, 1);
    assert Created(s1, 3, 1) == Reused();
  }

  /** A run of four slots.  Process 2 begins to exit while its parent is 1; 1 exits and is reaped, and 2's child 3 forks
      into slot 1.  3 exits and wants the lock of its child 1, holding its own and 2's; 2 takes the lock of slot 1,
      where its parent was, and wants its own. */
  lemma ExitDeadlocks()
    ensures exists s :: Reach(s) && |s.procs| == 4 && Mutual(s, 2, 3) && Stale(s, 2)
  {
    ReusedReach();
    hide Reach;
    var s0 := Reused();
    ExitBegins(s0, 3);
    var s1 := At(s0, 3, Exit3);
    ExitLocks(s1, 3);
    var s2 := At(s1, 3, Give(2, 0)).(lock := s1.lock[2 := 3][3 := 3]);
    GiveLoop(s2, 3, 2, 0, 1);
    var s3 := At(s2, 3, Give(2, 1));
    ReachStep(s3, 3, Ok);
    var s4 := Do(s3, 3, Ok);
    assert s4 == At(s2, 3, Saw(2, 1));
    ReachStep(s4, 2, Ok);
    var s5 := Do(s4, 2, Ok);
    assert s5 == At(s4, 2, Exit6(1)).(lock := s4.lock[1 := 2]);
    assert Reach(s5) && |s5.procs| == 4 && Mutual(s5, 2, 3) && Stale(s5, 2);
  }
}
