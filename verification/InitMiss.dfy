/**
 * exit wakes init up before it hands its children over (kernel/proc.c), so init can go back to sleep in
 * between.  Which steps leave init asleep in wait with a zombie child, and a run that does.
 */
module InitMiss {
  import opened ExitWait

  ghost predicate Reach(s: State) {
    exists ss :: Run(ss) && ss[|ss| - 1] == s
  }

  lemma ReachStep(s: State, p: int, x: Choice)
    requires Reach(s) && Enabled(s, p, x)
    ensures Reach(Do(s, p, x))
  {
    var ss :| Run(ss) && ss[|ss| - 1] == s;
    var s' := Do(s, p, x);
    assert Step(s, s');
    var ss' := ss + [s'];
    forall i, j | 0 <= i && j == i + 1 && j < |ss'| ensures Step(ss'[i], ss'[j]) {
      if j < |ss| {
        assert Step(ss[i], ss[j]);
      }
    }
    assert Run(ss');
    assert ss'[|ss'| - 1] == s';
  }

  // ----- when init misses a child

  ghost predicate Orphan(s: State, q: int) {
    In(q, |s.procs|) && s.procs[q].parent == INIT && s.procs[q].state == ZOMBIE
  }

  /** init sleeps in wait although it has a zombie child. */
  ghost predicate Missed(s: State) {
    |s.procs| > 0 && s.procs[INIT].state == SLEEPING && exists q :: Orphan(s, q)
  }

  /** reparent hands a zombie to the sleeping init; or a process that was handed to it dies while it sleeps; or
      init goes to sleep after its scan while one of the slots it has passed holds such a zombie. */
  ghost predicate Makes(s: State, p: int, x: Choice)
    requires Enabled(s, p, x)
  {
    var pc := s.procs[p].pc;
    || (pc.Given? && In(pc.i, |s.procs|) && s.procs[pc.i].state == ZOMBIE && s.procs[INIT].state == SLEEPING)
    || (pc.Exit8? && s.procs[p].parent == INIT && s.procs[INIT].state == SLEEPING)
    || (p == INIT && pc.Scan? && pc.i == |s.procs| && pc.kids && !x.Fail? && exists q :: Orphan(s, q))
  }

  lemma BeginMisses(s: State, p: int, x: Choice)
    requires Enabled(s, p, x) && !Missed(s) && StateOk(p, s.procs[p])
    requires var pc := s.procs[p].pc; pc.Free? || Forking(pc) || Taking(pc)
    ensures !Missed(Do(s, p, x))
  {
    var s' := Do(s, p, x);
    if Missed(s') {
      var q :| Orphan(s', q);
      assert Orphan(s, q);
    }
  }

  lemma GiveMisses(s: State, p: int, x: Choice)
    requires Enabled(s, p, x) && !Missed(s) && StateOk(p, s.procs[p]) && Claims(s.lock, p, s.procs[p].pc)
             && Giving(s.procs[p].pc)
    ensures Missed(Do(s, p, x)) <==> Makes(s, p, x)
  {
    var s' := Do(s, p, x);
    if Makes(s, p, x) {
      assert Orphan(s', s.procs[p].pc.i);
    }
    if Missed(s') {
      var q :| Orphan(s', q);
      assert Orphan(s, q) || (s.procs[p].pc.Given? && q == s.procs[p].pc.i);
    }
  }

  lemma DieMisses(s: State, p: int, x: Choice)
    requires Enabled(s, p, x) && !Missed(s) && StateOk(p, s.procs[p]) && Dying(s.procs[p].pc)
    ensures Missed(Do(s, p, x)) <==> Makes(s, p, x)
  {
    var s' := Do(s, p, x);
    if Makes(s, p, x) {
      assert Orphan(s', p);
    }
    if Missed(s') {
      var q :| Orphan(s', q);
      assert Orphan(s, q) || (s.procs[p].pc.Exit8? && q == p);
    }
  }

  lemma WaitMisses(s: State, p: int, x: Choice)
    requires Enabled(s, p, x) && !Missed(s) && StateOk(p, s.procs[p]) && Claims(s.lock, p, s.procs[p].pc)
    requires var pc := s.procs[p].pc; pc.Wait1? || pc.Asleep? || pc.Scan? || pc.Found? || pc.Child?
    ensures Missed(Do(s, p, x)) <==> Makes(s, p, x)
  {
    var s' := Do(s, p, x);
    if Makes(s, p, x) {
      var q :| Orphan(s, q);
      assert Orphan(s', q);
    }
    if Missed(s') {
      var q :| Orphan(s', q);
      assert Orphan(s, q);
    }
  }

  lemma StepMisses(s: State, p: int, x: Choice)
    requires Inv(s) && Enabled(s, p, x) && !Missed(s)
    ensures Missed(Do(s, p, x)) <==> Makes(s, p, x)
  {
    assert StateOk(p, s.procs[p]) && Claims(s.lock, p, s.procs[p].pc);
    hide Inv, Do, Missed, StateOk, Claims;
    var pc := s.procs[p].pc;
    if pc.Free? || Forking(pc) || Taking(pc) {
      BeginMisses(s, p, x);
    } else if Giving(pc) {
      GiveMisses(s, p, x);
    } else if Dying(pc) {
      DieMisses(s, p, x);
    } else {
      WaitMisses(s, p, x);
    }
  }

  /** In every run, a process's step leaves init asleep with a zombie child that it had not missed before if and
      only if it is one of the three above. */
  lemma MissIff(ss: seq<State>, p: int, x: Choice)
    requires Run(ss) && Enabled(ss[|ss| - 1], p, x) && !Missed(ss[|ss| - 1])
    ensures Missed(Do(ss[|ss| - 1], p, x)) <==> Makes(ss[|ss| - 1], p, x)
  {
    RunInv(ss);
    StepMisses(ss[|ss| - 1], p, x);
  }

  lemma KillMisses(s: State, s': State)
    requires Killed(s, s') && Missed(s')
    ensures Missed(s)
  {
    var q :| Orphan(s', q);
    assert Orphan(s, q);
  }

  /** In every run that ends with init having missed a child, one of the three steps was taken before. */
  lemma {:induction false} MissHasMaker(ss: seq<State>) returns (k: int, p: int, x: Choice)
    requires Run(ss) && Missed(ss[|ss| - 1])
    ensures 0 <= k < |ss| - 1 && Enabled(ss[k], p, x) && ss[k + 1] == Do(ss[k], p, x) && Makes(ss[k], p, x)
  {
    hide Missed, Makes, Do, Enabled, Step, Init;
    var n := |ss| - 1;
    if n == 0 {
      InitNotMissed(ss[0]);
    } else {
      Shorter(ss);
      var s, s' := ss[n - 1], ss[n];
      if Missed(s) {
        k, p, x := MissHasMaker(ss[..n]);
      } else {
        p, x := Stepper(s, s');
        k := n - 1;
        MissIff(ss[..n], p, x);
      }
    }
  }

  lemma InitNotMissed(s: State)
    requires Init(s)
    ensures !Missed(s)
  {
  }

  lemma Stepper(s: State, s': State) returns (p: int, x: Choice)
    requires Step(s, s') && !Missed(s) && Missed(s')
    ensures Enabled(s, p, x) && s' == Do(s, p, x)
  {
    hide Do, Enabled, Missed;
    if Killed(s, s') {
      KillMisses(s, s');
    }
    p, x :| Enabled(s, p, x) && s' == Do(s, p, x);
  }

  lemma Shorter(ss: seq<State>)
    requires Run(ss) && |ss| > 1
    ensures var n := |ss| - 1; Run(ss[..n]) && ss[..n][n - 1] == ss[n - 1] && Step(ss[n - 1], ss[n])
  {
    hide Step, Init;
    var n := |ss| - 1;
    forall i, j | 0 <= i && j == i + 1 && j < n ensures Step(ss[..n][i], ss[..n][j]) {
      assert Step(ss[i], ss[j]);
    }
    assert Step(ss[n - 1], ss[n]);
  }

  // ----- runs

  ghost predicate Unlocked(s: State) {
    |s.lock| == |s.procs| && forall j :: In(j, |s.lock|) ==> s.lock[j] == -1
  }

  // ----- fork

  ghost function Created(s: State, p: int, i: int): State
    requires In(p, |s.procs|) && In(i, |s.procs|)
  {
    At(Put(s, i, Proc(ALIVE, p, Free, s.births, false)), p, Free).(births := s.births + 1)
  }

  lemma {:induction false} AllocLoop(s: State, p: int, k: int, i: int)
    requires Reach(s) && Unlocked(s) && In(p, |s.procs|) && In(i, |s.procs|) && 0 <= k <= i && p != i
    requires s.procs[p].state == ALIVE && s.procs[p].pc == Alloc(k) && s.procs[i].state == UNUSED
    requires forall j :: k <= j < i ==> s.procs[j].state != UNUSED
    ensures Reach(Created(s, p, i))
    decreases i - k
  {
    hide Reach;
    ReachStep(s, p, Ok);
    var s1 := Do(s, p, Ok);
    ReachStep(s1, p, Ok);
    var s2 := Do(s1, p, Ok);
    assert s1.lock[k := -1] == s.lock;
    if k == i {
      assert s2 == Created(s, p, i);
    } else {
      AllocLoop(s2, p, k + 1, i);
      assert Created(s2, p, i) == Created(s, p, i);
    }
  }

  lemma ForkReach(s: State, p: int, i: int)
    requires Reach(s) && Unlocked(s) && In(p, |s.procs|) && In(i, |s.procs|) && p != i
    requires s.procs[p].state == ALIVE && s.procs[p].pc == Free && s.procs[i].state == UNUSED
    requires forall j :: 0 <= j < i ==> s.procs[j].state != UNUSED
    ensures Reach(Created(s, p, i))
  {
    hide Reach;
    ReachStep(s, p, Fork);
    var s1 := Do(s, p, Fork);
    AllocLoop(s1, p, 0, i);
    assert Created(s1, p, i) == Created(s, p, i);
  }

  // ----- exit

  /** reparent passes over slots that hold no child. */
  lemma {:induction false} GiveLoop(s: State, p: int, was: int, k: int, m: int)
    requires Reach(s) && In(p, |s.procs|) && |s.lock| == |s.procs| && s.procs[p].state == ALIVE
             && s.procs[p].pc == Give(was, k)
    requires 0 <= k <= m <= |s.procs| && forall j :: k <= j < m ==> s.procs[j].parent != p
    ensures Reach(At(s, p, Give(was, m)))
    decreases m - k
  {
    hide Reach;
    if k < m {
      ReachStep(s, p, Ok);
      var s1 := Do(s, p, Ok);
      GiveLoop(s1, p, was, k + 1, m);
      assert At(s1, p, Give(was, m)) == At(s, p, Give(was, m));
    } else {
      assert At(s, p, Give(was, m)) == s;
    }
  }

  /** exit up to the point where it has woken init. */
  lemma ExitBegins(s: State, p: int)
    requires Reach(s) && Unlocked(s) && In(p, |s.procs|) && p != INIT && s.procs[p].state == ALIVE
             && s.procs[p].pc == Free && s.procs[INIT].state == ALIVE
    ensures Reach(At(s, p, Exit3))
  {
    hide Reach;
    ReachStep(s, p, Exit);
    var s1 := Do(s, p, Exit);
    ReachStep(s1, p, Ok);
    var s2 := Do(s1, p, Ok);
    ReachStep(s2, p, Ok);
    assert s.lock[INIT := p][INIT := -1] == s.lock;
    assert Do(s2, p, Ok) == At(s, p, Exit3);
  }

  /** From there to the start of reparent. */
  lemma ExitLocks(s: State, p: int)
    requires Reach(s) && Unlocked(s) && In(p, |s.procs|) && s.procs[p].state == ALIVE && s.procs[p].pc == Exit3
    requires In(s.procs[p].parent, |s.procs|) && s.procs[p].parent != p
    ensures Reach(At(s, p, Give(s.procs[p].parent, 0)).(lock := s.lock[s.procs[p].parent := p][p := p]))
  {
    hide Reach;
    var was := s.procs[p].parent;
    ReachStep(s, p, Ok);
    var s1 := Do(s, p, Ok);
    ReachStep(s1, p, Ok);
    var s2 := Do(s1, p, Ok);
    assert s.lock[p := p][p := -1] == s.lock;
    ReachStep(s2, p, Ok);
    var s3 := Do(s2, p, Ok);
    ReachStep(s3, p, Ok);
    assert Do(s3, p, Ok) == At(s, p, Give(was, 0)).(lock := s.lock[was := p][p := p]);
  }

  /** A process without children whose parent is not asleep exits. */
  lemma ExitReach(s: State, p: int)
    requires Reach(s) && Unlocked(s) && In(p, |s.procs|) && p != INIT && s.procs[p].state == ALIVE
             && s.procs[p].pc == Free && s.procs[INIT].state == ALIVE
    requires var was := s.procs[p].parent; In(was, |s.procs|) && was != p && s.procs[was].state == ALIVE
    requires forall j :: In(j, |s.procs|) ==> s.procs[j].parent != p
    ensures Reach(Put(s, p, s.procs[p].(state := ZOMBIE, pc := Dead)))
  {
    hide Reach;
    var was, n := s.procs[p].parent, |s.procs|;
    ExitBegins(s, p);
    ExitLocks(At(s, p, Exit3), p);
    var s1 := At(s, p, Give(was, 0)).(lock := s.lock[was := p][p := p]);
    assert s1 == At(At(s, p, Exit3), p, Give(was, 0)).(lock := s.lock[was := p][p := p]);
    GiveLoop(s1, p, was, 0, n);
    ExitEnds(At(s1, p, Give(was, n)), p, was);
    assert s.lock[was := p][p := p][was := -1][p := -1] == s.lock;
    assert Put(s, p, s.procs[p].(state := ZOMBIE, pc := Dead)) == Ended(At(s1, p, Give(was, n)), p, was);
  }

  ghost function Ended(s: State, p: int, was: int): State
    requires In(p, |s.procs|) && In(was, |s.lock|) && |s.lock| == |s.procs|
  {
    Put(s, p, s.procs[p].(state := ZOMBIE, pc := Dead)).(lock := s.lock[was := -1][p := -1])
  }

  lemma ExitEnds(s: State, p: int, was: int)
    requires Reach(s) && In(p, |s.procs|) && In(was, |s.procs|) && |s.lock| == |s.procs| && was != p
    requires s.procs[p].state == ALIVE && s.procs[p].pc == Give(was, |s.procs|) && s.procs[was].state != SLEEPING
    ensures Reach(Ended(s, p, was))
  {
    hide Reach;
    ReachStep(s, p, Ok);
    var s1 := Do(s, p, Ok);
    assert s1 == At(s, p, Exit7(was));
    ReachStep(s1, p, Ok);
    var s2 := Do(s1, p, Ok);
    assert s2 == At(s, p, Exit8(was));
    ExitLeaves(s2, p, was);
    assert Ended(s2, p, was) == Ended(s, p, was);
  }

  lemma ExitLeaves(s: State, p: int, was: int)
    requires Reach(s) && In(p, |s.procs|) && In(was, |s.procs|) && |s.lock| == |s.procs| && was != p
    requires s.procs[p].state == ALIVE && s.procs[p].pc == Exit8(was)
    ensures Reach(Ended(s, p, was))
  {
    hide Reach;
    ReachStep(s, p, Ok);
    var s3 := Do(s, p, Ok);
    ReachStep(s3, p, Ok);
    var s4 := Do(s3, p, Ok);
    ReachStep(s4, p, Ok);
    assert Do(s4, p, Ok) == Ended(s, p, was);
  }

  ghost function Handed(s: State, p: int, was: int, i: int): State
    requires In(p, |s.procs|) && In(i, |s.procs|)
  {
    At(Put(s, i, s.procs[i].(parent := INIT, handed := true)), p, Give(was, i + 1))
  }

  /** reparent hands child i over. */
  lemma HandReach(s: State, p: int, was: int, i: int)
    requires Reach(s) && In(p, |s.procs|) && In(i, |s.procs|) && |s.lock| == |s.procs| && i != p && s.lock[i] == -1
    requires s.procs[p].state == ALIVE && s.procs[p].pc == Give(was, i) && s.procs[i].parent == p
    ensures Reach(Handed(s, p, was, i))
  {
    hide Reach;
    ReachStep(s, p, Ok);
    var s1 := Do(s, p, Ok);
    assert s1 == At(s, p, Saw(was, i));
    ReachStep(s1, p, Ok);
    var s2 := Do(s1, p, Ok);
    assert s2 == At(s, p, Given(was, i)).(lock := s.lock[i := p]);
    ReachStep(s2, p, Ok);
    assert s.lock[i := p][i := -1] == s.lock;
    assert Do(s2, p, Ok) == Handed(s, p, was, i);
  }

  // ----- wait

  ghost function Sleeper(s: State, p: int): State
    requires In(p, |s.procs|) && In(p, |s.lock|)
  {
    Put(s, p, s.procs[p].(state := SLEEPING, pc := Asleep)).(lock := s.lock[p := -1])
  }

  /** wait looks at child k, which is alive. */
  lemma LookReach(s: State, p: int, k: int)
    requires Reach(s) && In(p, |s.procs|) && |s.lock| == |s.procs| && s.procs[p].state == ALIVE
             && s.procs[p].pc == Found(k)
    requires In(k, |s.procs|) && s.procs[k].state != ZOMBIE && s.lock[k] == -1 && k != p
    ensures Reach(At(s, p, Scan(k + 1, true)))
  {
    hide Reach;
    ReachStep(s, p, Ok);
    var s1 := Do(s, p, Ok);
    assert s1 == At(s, p, Child(k)).(lock := s.lock[k := p]);
    ReachStep(s1, p, Ok);
    assert s.lock[k := p][k := -1] == s.lock;
    assert Do(s1, p, Ok) == At(s, p, Scan(k + 1, true));
  }

  /** wait scans live children and goes to sleep. */
  lemma {:induction false} ScanLoop(s: State, p: int, k: int, kids: bool)
    requires Reach(s) && In(p, |s.procs|) && |s.lock| == |s.procs| && s.procs[p].state == ALIVE
             && s.procs[p].pc == Scan(k, kids) && 0 <= k <= |s.procs|
    requires forall j ::
               k <= j < |s.procs| && s.procs[j].parent == p ==> s.procs[j].state != ZOMBIE && s.lock[j] == -1 && j != p
    requires kids || exists j :: k <= j < |s.procs| && s.procs[j].parent == p
    ensures Reach(Sleeper(s, p))
    decreases |s.procs| - k
  {
    hide Reach;
    ReachStep(s, p, Ok);
    var s1 := Do(s, p, Ok);
    if k == |s.procs| {
      assert s1 == Sleeper(s, p);
    } else if s.procs[k].parent == p {
      LookReach(s1, p, k);
      assert At(s1, p, Scan(k + 1, true)) == At(s, p, Scan(k + 1, true));
      ScanLoop(At(s, p, Scan(k + 1, true)), p, k + 1, true);
      assert Sleeper(At(s, p, Scan(k + 1, true)), p) == Sleeper(s, p);
    } else {
      ScanLoop(s1, p, k + 1, kids);
      assert Sleeper(s1, p) == Sleeper(s, p);
    }
  }

  lemma WaitReach(s: State, p: int, child: int)
    requires Reach(s) && Unlocked(s) && In(p, |s.procs|) && s.procs[p].state == ALIVE && s.procs[p].pc == Free
    requires In(child, |s.procs|) && s.procs[child].parent == p
    requires forall j :: In(j, |s.procs|) && s.procs[j].parent == p ==> s.procs[j].state != ZOMBIE && j != p
    ensures Reach(Put(s, p, s.procs[p].(state := SLEEPING, pc := Asleep)))
  {
    hide Reach;
    ReachStep(s, p, Wait);
    var s1 := Do(s, p, Wait);
    ReachStep(s1, p, Ok);
    var s2 := Do(s1, p, Ok);
    assert s2.procs[child].parent == p;
    ScanLoop(s2, p, 0, false);
    assert s.lock[p := p][p := -1] == s.lock;
    assert Sleeper(s2, p) == Put(s, p, s.procs[p].(state := SLEEPING, pc := Asleep));
  }

  // ----- the run

  /** init has child 1, which has child 2, which has the zombie child 3. */
  ghost function Family(): State {
    State([Proc(ALIVE, -1, Free, 0, false), Proc(ALIVE, 0, Free, 1, false), Proc(ALIVE, 1, Free, 2, false),
      Proc(ZOMBIE, 2, Dead, 3, false)],
          [-1, -1, -1, -1], 4, [])
  }

  ghost function Live(parent: int, id: nat): Proc { Proc(ALIVE, parent, Free, id, false) }

  ghost function Start(): State {
    State([Live(-1, 0), NoProc(), NoProc(), NoProc()], [-1, -1, -1, -1], 1, [])
  }

  lemma StartReach()
    ensures Reach(Start())
  {
    assert Run([Start()]);
    assert [Start()][|[Start()]| - 1] == Start();
  }

  lemma ForksReach()
    ensures Reach(State([Live(-1, 0), Live(0, 1), Live(1, 2), NoProc()], [-1, -1, -1, -1], 3, []))
  {
    StartReach();
    hide Reach;
    var s0 := Start();
    ForkReach(s0, 0, 1);
    var s1 := State([Live(-1, 0), Live(0, 1), NoProc(), NoProc()], [-1, -1, -1, -1], 2, []);
    assert Created(s0, 0, 1) == s1;
    ForkReach(s1, 1, 2);
    assert Created(s1, 1, 2) == State([Live(-1, 0), Live(0, 1), Live(1, 2), NoProc()], [-1, -1, -1, -1], 3, []);
  }

  lemma FamilyReach()
    ensures Reach(Family())
  {
    ForksReach();
    hide Reach;
    var s2 := State([Live(-1, 0), Live(0, 1), Live(1, 2), NoProc()], [-1, -1, -1, -1], 3, []);
    ForkReach(s2, 2, 3);
    var s3 := State([Live(-1, 0), Live(0, 1), Live(1, 2), Live(2, 3)], [-1, -1, -1, -1], 4, []);
    assert Created(s2, 2, 3) == s3;
    ExitReach(s3, 3);
    assert Put(s3, 3, s3.procs[3].(state := ZOMBIE, pc := Dead)) == Family();
  }

  /** Process 2 starts to exit and wakes init; init waits; then process 2 hands its zombie child to init and
      dies.  Nobody holds a lock and only process 1 is left to run. */
  lemma InitMissesWakeup()
    ensures exists s ::
              Reach(s) && Missed(s) && Unlocked(s) && |s.procs| == 4 && s.procs[2].pc == Dead && s.procs[1].pc == Free
  {
    FamilyReach();
    hide Reach;
    var s0 := Family();
    ExitBegins(s0, 2);
    var s1 := At(s0, 2, Exit3);
    WaitReach(s1, 0, 1);
    var s2 := Put(s1, 0, s1.procs[0].(state := SLEEPING, pc := Asleep));
    ExitLocks(s2, 2);
    var s3 := At(s2, 2, Give(1, 0)).(lock := s2.lock[1 := 2][2 := 2]);
    GiveLoop(s3, 2, 1, 0, 3);
    var s4 := At(s3, 2, Give(1, 3));
    HandReach(s4, 2, 1, 3);
    var s5 := Handed(s4, 2, 1, 3);
    ExitEnds(s5, 2, 1);
    var s6 := Ended(s5, 2, 1);
    assert Orphan(s6, 3);
    assert Reach(s6) && Missed(s6) && Unlocked(s6) && s6.procs[2].pc == Dead && s6.procs[1].pc == Free;
  }
}
