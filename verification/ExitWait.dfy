/**
 * fork, exit, reparent, wait and wakeup1 of kernel/proc.c as a step relation over the process table, for every
 * interleaving.  A step is what a process does between two operations on process locks.  reparent and wait read
 * a slot's parent without its lock and acquire the lock afterwards; other processes move in between.
 */
module ExitWait {

  datatype PState = UNUSED | ALIVE | SLEEPING | ZOMBIE     // ALIVE: runnable or running

  /** Where a process is.  `was` is the parent that exit found, i and kids are the scan's position and whether
      it has seen a child. */
  datatype Pc =
    | None                        // no process
    | Free                        // outside these calls
    | Alloc(i: int)               // fork: about to acquire slot i's lock
    | Slot(i: int)                // holding it
    | Exit1                       // exit: about to acquire init's lock
    | Exit2                       // holding it
    | Exit3                       // about to acquire the process's own lock
    | Exit4                       // holding it
    | Exit5(was: int)             // about to acquire the lock of was
    | Exit6(was: int)             // holding it, about to acquire the process's own lock
    | Give(was: int, i: int)      // reparent: holding both, about to look at slot i
    | Saw(was: int, i: int)       // slot i's parent is the process itself; about to acquire slot i's lock
    | Given(was: int, i: int)     // holding slot i's lock too
    | Exit7(was: int)             // about to wake up was
    | Exit8(was: int)             // about to become a zombie
    | Exit9(was: int)             // zombie, about to release the lock of was
    | Exit10                      // about to leave the CPU, which releases the process's own lock
    | Dead
    | Wait1                       // wait: about to acquire the process's own lock
    | Scan(i: int, kids: bool)    // holding it, about to look at slot i
    | Found(i: int)               // slot i's parent is the process itself; about to acquire slot i's lock
    | Child(i: int)               // holding the lock of child i too
    | Asleep                      // sleeping on the process itself, its lock released

  /** id tells the processes that successively use a slot apart; handed is set when the process has been given
      to init. */
  datatype Proc = Proc(state: PState, parent: int, pc: Pc, id: nat, handed: bool)

  /** lock[p]: the process holding p's lock, -1 if it is free.  reaped lists the processes reaped so far. */
  datatype State = State(procs: seq<Proc>, lock: seq<int>, births: nat, reaped: seq<nat>)

  const INIT: int := 0

  ghost function Put(s: State, p: int, q: Proc): State
    requires 0 <= p < |s.procs|
  {
    s.(procs := s.procs[p := q])
  }

  ghost function At(s: State, p: int, pc: Pc): State
    requires 0 <= p < |s.procs|
  {
    Put(s, p, s.procs[p].(pc := pc))
  }

  /** wakeup1. */
  ghost function Woken(s: State, p: int): State
    requires 0 <= p < |s.procs|
  {
    if s.procs[p].state == SLEEPING then Put(s, p, s.procs[p].(state := ALIVE)) else s
  }

  ghost function NoProc(): Proc { Proc(UNUSED, -1, None, 0, false) }

  // ----- steps

  /** What a process does where it has a choice: which call to make; whether fork finds memory and wait can
      copy the status out and has not been killed. */
  datatype Choice = Fork | Exit | Wait | Ok | Fail

  ghost predicate Free?(s: State, j: int) { 0 <= j < |s.lock| && s.lock[j] == -1 }

  ghost predicate Enabled(s: State, p: int, x: Choice) {
    && 0 <= p < |s.procs| == |s.lock| && s.procs[p].state != SLEEPING
    && match s.procs[p].pc
       case None => false
       case Dead => false
       case Free => x.Fork? || x.Wait? || (x.Exit? && p != INIT)
       case Alloc(i) => 0 <= i < |s.procs| ==> Free?(s, i)
       case Exit1 => Free?(s, INIT)
       case Exit3 => Free?(s, p)
       case Exit5(was) => Free?(s, was)
       case Exit6(was) => Free?(s, p)
       case Give(was, i) => 0 <= i <= |s.procs|
       case Saw(was, i) => Free?(s, i)
       case Wait1 => Free?(s, p)
       case Asleep => Free?(s, p)
       case Scan(i, kids) => 0 <= i <= |s.procs|
       case Found(i) => Free?(s, i)
       case _ => true
  }

  /** A step of fork. */
  ghost function DoFork(s: State, p: int, x: Choice): State
    requires 0 <= p < |s.procs| == |s.lock|
  {
    match s.procs[p].pc
    case Alloc(i) => if 0 <= i < |s.procs| then At(s, p, Slot(i)).(lock := s.lock[i := p]) else At(s, p, Free)
    case Slot(i) =>
      if !(0 <= i < |s.procs|) then s
      else if s.procs[i].state != UNUSED then At(s, p, Alloc(i + 1)).(lock := s.lock[i := -1])
      else if x.Fail? then At(s, p, Free).(lock := s.lock[i := -1])
      else At(Put(s, i, Proc(ALIVE, p, Free, s.births, false)), p, Free).(lock := s.lock[i := -1],
        births := s.births + 1)
    case _ => s
  }

  /** A step of exit up to taking both locks. */
  ghost function DoExit(s: State, p: int): State
    requires 0 <= p < |s.procs| == |s.lock|
  {
    match s.procs[p].pc
    case Exit1 => At(s, p, Exit2).(lock := s.lock[INIT := p])
    case Exit2 => At(Woken(s, INIT), p, Exit3).(lock := s.lock[INIT := -1])
    case Exit3 => At(s, p, Exit4).(lock := s.lock[p := p])
    case Exit4 => At(s, p, Exit5(s.procs[p].parent)).(lock := s.lock[p := -1])
    case Exit5(was) => if 0 <= was < |s.procs| then At(s, p, Exit6(was)).(lock := s.lock[was := p]) else s
    case Exit6(was) => At(s, p, Give(was, 0)).(lock := s.lock[p := p])
    case _ => s
  }

  /** A step of reparent. */
  ghost function DoGive(s: State, p: int): State
    requires 0 <= p < |s.procs| == |s.lock|
  {
    match s.procs[p].pc
    case Give(was, i) =>
      if !(0 <= i < |s.procs|) then At(s, p, Exit7(was))
      else At(s, p, if s.procs[i].parent == p then Saw(was, i) else Give(was, i + 1))
    case Saw(was, i) => if 0 <= i < |s.procs| then At(s, p, Given(was, i)).(lock := s.lock[i := p]) else s
    case Given(was, i) =>
      if 0 <= i < |s.procs| then
        At(Put(s, i, s.procs[i].(parent := INIT, handed := true)), p, Give(was, i + 1)).(lock := s.lock[i := -1])
      else s
    case _ => s
  }

  /** A step of the end of exit. */
  ghost function DoDie(s: State, p: int): State
    requires 0 <= p < |s.procs| == |s.lock|
  {
    match s.procs[p].pc
    case Exit7(was) => if 0 <= was < |s.procs| then At(Woken(s, was), p, Exit8(was)) else s
    case Exit8(was) => Put(s, p, s.procs[p].(state := ZOMBIE, pc := Exit9(was)))
    case Exit9(was) => if 0 <= was < |s.procs| then At(s, p, Exit10).(lock := s.lock[was := -1]) else s
    case Exit10 => At(s, p, Dead).(lock := s.lock[p := -1])
    case _ => s
  }

  /** A step of wait. */
  ghost function DoWait(s: State, p: int, x: Choice): State
    requires 0 <= p < |s.procs| == |s.lock|
  {
    match s.procs[p].pc
    case Wait1 => At(s, p, Scan(0, false)).(lock := s.lock[p := p])
    case Asleep => At(s, p, Scan(0, false)).(lock := s.lock[p := p])
    case Scan(i, kids) =>
      if 0 <= i < |s.procs| then
        At(s, p, if s.procs[i].parent == p then Found(i) else Scan(i + 1, kids))
      else if !kids || x.Fail? then At(s, p, Free).(lock := s.lock[p := -1])
      else Put(s, p, s.procs[p].(state := SLEEPING, pc := Asleep)).(lock := s.lock[p := -1])
    case Found(i) => if 0 <= i < |s.procs| then At(s, p, Child(i)).(lock := s.lock[i := p]) else s
    case Child(i) =>
      if !(0 <= i < |s.procs|) then s
      else if s.procs[i].state != ZOMBIE then At(s, p, Scan(i + 1, true)).(lock := s.lock[i := -1])
      else if x.Fail? then At(s, p, Free).(lock := s.lock[i := -1][p := -1])
      else At(Put(s, i, NoProc()), p, Free).(lock := s.lock[i := -1][p := -1], reaped := s.reaped + [s.procs[i].id])
    case _ => s
  }

  predicate Forking(pc: Pc) { pc.Alloc? || pc.Slot? }
  predicate Taking(pc: Pc) { pc.Exit1? || pc.Exit2? || pc.Exit3? || pc.Exit4? || pc.Exit5? || pc.Exit6? }
  predicate Giving(pc: Pc) { pc.Give? || pc.Saw? || pc.Given? }
  predicate Dying(pc: Pc) { pc.Exit7? || pc.Exit8? || pc.Exit9? || pc.Exit10? }

  ghost function Do(s: State, p: int, x: Choice): State
    requires Enabled(s, p, x)
  {
    var pc := s.procs[p].pc;
    if pc.Free? then At(s, p, if x.Fork? then Alloc(0) else if x.Exit? then Exit1 else Wait1)
    else if Forking(pc) then DoFork(s, p, x)
    else if Taking(pc) then DoExit(s, p)
    else if Giving(pc) then DoGive(s, p)
    else if Dying(pc) then DoDie(s, p)
    else DoWait(s, p, x)
  }

  /** kill: a sleeping process is made runnable. */
  ghost predicate Killed(s: State, s': State) {
    exists p :: 0 <= p < |s.procs| == |s.lock| && s.lock[p] == -1 && s' == Woken(s, p)
  }

  ghost predicate Step(s: State, s': State) {
    Killed(s, s') || exists p, x :: Enabled(s, p, x) && s' == Do(s, p, x)
  }

  ghost predicate Init(s: State) {
    && |s.lock| == |s.procs| > 0 && s.births == 1 && s.reaped == []
    && s.procs[INIT] == Proc(ALIVE, -1, Free, 0, false)
    && (forall p :: 1 <= p < |s.procs| ==> s.procs[p] == NoProc())
    && (forall p :: 0 <= p < |s.procs| ==> s.lock[p] == -1)
  }

  ghost predicate Run(ss: seq<State>) {
    |ss| > 0 && Init(ss[0]) && forall i, j :: 0 <= i && j == i + 1 && j < |ss| ==> Step(ss[i], ss[j])
  }

  // ----- the invariant

  predicate In(i: int, n: int) { 0 <= i < n }

  /** The locks that p holds where it is. */
  predicate Claims(lock: seq<int>, p: int, pc: Pc)
    requires In(p, |lock|)
  {
    match pc
    case Slot(i) => In(i, |lock|) && lock[i] == p
    case Exit2 => lock[INIT] == p
    case Exit4 => lock[p] == p
    case Exit6(was) => In(was, |lock|) && lock[was] == p
    case Give(was, i) => In(was, |lock|) && was != p && lock[was] == p && lock[p] == p && 0 <= i <= |lock|
    case Saw(was, i) => In(was, |lock|) && was != p && lock[was] == p && lock[p] == p && In(i, |lock|)
    case Given(was, i) =>
      In(was, |lock|) && was != p && lock[was] == p && lock[p] == p && In(i, |lock|) && lock[i] == p && i != p
        && i != was
    case Exit7(was) => In(was, |lock|) && was != p && lock[was] == p && lock[p] == p
    case Exit8(was) => In(was, |lock|) && was != p && lock[was] == p && lock[p] == p
    case Exit9(was) => In(was, |lock|) && was != p && lock[was] == p && lock[p] == p
    case Exit10 => lock[p] == p
    case Scan(i, _) => lock[p] == p && 0 <= i <= |lock|
    case Found(i) => lock[p] == p && In(i, |lock|)
    case Child(i) => lock[p] == p && In(i, |lock|) && lock[i] == p && i != p
    case Alloc(i) => 0 <= i
    case _ => true
  }

  predicate Exiting(pc: Pc) { Taking(pc) || Giving(pc) || Dying(pc) || pc.Dead? }

  predicate Gone(pc: Pc) { pc.Exit9? || pc.Exit10? || pc.Dead? }

  predicate StateOk(p: int, q: Proc) {
    && (q.state == UNUSED <==> q.pc.None?)
    && (q.state == ZOMBIE <==> Gone(q.pc))
    && (q.state == SLEEPING ==> q.pc.Asleep?)
    && (p == INIT ==> !Exiting(q.pc) && !q.pc.None?)
  }

  ghost predicate LockInv(s: State) {
    |s.lock| == |s.procs| > 0 && forall p :: In(p, |s.procs|) ==> Claims(s.lock, p, s.procs[p].pc)
  }

  ghost predicate StateInv(s: State) {
    forall p :: In(p, |s.procs|) ==> StateOk(p, s.procs[p])
  }

  predicate Up(q: Proc) { q.state == ALIVE || q.state == SLEEPING }

  /** A process other than init has a parent and the parent is there; a free slot and init have none. */
  ghost predicate ParentOk(s: State, p: int)
    requires In(p, |s.procs|)
  {
    var q := s.procs[p];
    && (p == INIT || q.state == UNUSED ==> q.parent == -1)
    && (p != INIT && q.state != UNUSED ==> In(q.parent, |s.procs|) && Up(s.procs[q.parent]))
    && (q.handed ==> q.parent == INIT)
  }

  /** None of the first i slots holds a child of p. */
  ghost predicate Childless(s: State, p: int, i: int) {
    forall j :: In(j, |s.procs|) && j < i ==> s.procs[j].parent != p
  }

  /** q's parent is still was, or q has been given to init. */
  predicate Heir(q: Proc, was: int) { q.parent == was || (q.parent == INIT && q.handed) }

  /** What p knows about parents and children. */
  ghost predicate Knows(s: State, p: int)
    requires In(p, |s.procs|)
  {
    var q := s.procs[p];
    match q.pc
    case Exit5(was) => In(was, |s.procs|) && Heir(q, was)
    case Exit6(was) => Heir(q, was)
    case Give(was, i) => Heir(q, was) && Childless(s, p, i)
    case Saw(was, i) => Heir(q, was) && Childless(s, p, i) && In(i, |s.procs|) && s.procs[i].parent == p
    case Given(was, i) => Heir(q, was) && Childless(s, p, i) && In(i, |s.procs|) && s.procs[i].parent == p
    case Exit7(was) => Heir(q, was) && Childless(s, p, |s.procs|)
    case Exit8(was) => Heir(q, was) && Childless(s, p, |s.procs|)
    case Found(i) => In(i, |s.procs|) && s.procs[i].parent == p
    case Child(i) => In(i, |s.procs|) && s.procs[i].parent == p
    case _ => true
  }

  ghost predicate FamilyInv(s: State) {
    (forall p :: In(p, |s.procs|) ==> ParentOk(s, p)) && forall p :: In(p, |s.procs|) ==> Knows(s, p)
  }

  /** Of the first i slots none holds a zombie child of p, unless it was given to init. */
  ghost predicate NoZombie(s: State, p: int, i: int) {
    forall j :: In(j, |s.procs|) && j < i && s.procs[j].parent == p && s.procs[j].state == ZOMBIE ==>
      p == INIT && s.procs[j].handed
  }

  ghost predicate Watched(s: State, p: int)
    requires In(p, |s.procs|)
  {
    var q := s.procs[p];
    match q.pc
    case Scan(i, _) => NoZombie(s, p, i)
    case Found(i) => NoZombie(s, p, i)
    case Child(i) => NoZombie(s, p, i)
    case Asleep => q.state == SLEEPING ==> NoZombie(s, p, |s.procs|)
    case Exit8(was) => In(was, |s.procs|) ==> s.procs[was].state != SLEEPING
    case _ => true
  }

  ghost predicate WaitInv(s: State) {
    forall p :: In(p, |s.procs|) ==> Watched(s, p)
  }

  predicate Used(q: Proc) { q.state != UNUSED }

  ghost predicate IdInv(s: State) {
    && (forall p :: In(p, |s.procs|) && s.procs[p].state != UNUSED ==>
          s.procs[p].id < s.births && s.procs[p].id !in s.reaped)
    && (forall p, q :: In(p, |s.procs|) && In(q, |s.procs|) && p != q && Used(s.procs[p]) && Used(s.procs[q]) ==>
          s.procs[p].id != s.procs[q].id)
    && (forall i, j :: 0 <= i < j < |s.reaped| ==> s.reaped[i] != s.reaped[j])
    && (forall i :: 0 <= i < |s.reaped| ==> s.reaped[i] < s.births)
  }

  ghost predicate Inv(s: State) {
    LockInv(s) && StateInv(s) && FamilyInv(s) && WaitInv(s) && IdInv(s)
  }

  // ----- locks

  /** From lock to lock' process p acquires free locks and releases its own. */
  ghost predicate LockMove(lock: seq<int>, lock': seq<int>, p: int) {
    && |lock'| == |lock|
    && forall j :: In(j, |lock|) ==>
         lock'[j] == lock[j] || (lock[j] == -1 && lock'[j] == p) || (lock[j] == p && lock'[j] == -1)
  }

  lemma OtherClaims(lock: seq<int>, lock': seq<int>, p: int, q: int, pc: Pc)
    requires LockMove(lock, lock', p) && In(q, |lock|) && q != p && Claims(lock, q, pc) && |lock| > 0
    ensures Claims(lock', q, pc)
  {
  }

  /** What a step does to locks and to the positions of the other processes. */
  ghost predicate Orderly(s: State, s': State, p: int)
    requires In(p, |s.procs|)
  {
    && |s'.procs| == |s.procs| == |s'.lock| && LockMove(s.lock, s'.lock, p) && Claims(s'.lock, p, s'.procs[p].pc)
    && forall q :: In(q, |s.procs|) && q != p ==>
         s'.procs[q].pc == s.procs[q].pc || s'.procs[q].pc == Free || s'.procs[q].pc == None
  }

  lemma OrderlyKeeps(s: State, s': State, p: int)
    requires LockInv(s) && In(p, |s.procs|) && Orderly(s, s', p)
    ensures LockInv(s')
  {
    forall q | In(q, |s'.procs|) ensures Claims(s'.lock, q, s'.procs[q].pc) {
      if q != p {
        OtherClaims(s.lock, s'.lock, p, q, s.procs[q].pc);
      }
    }
  }

  lemma ForkOrderly(s: State, p: int, x: Choice)
    requires LockInv(s) && Enabled(s, p, x) && Forking(s.procs[p].pc)
    ensures Orderly(s, DoFork(s, p, x), p)
  {
    assert Claims(s.lock, p, s.procs[p].pc);
  }

  lemma TakeOrderly(s: State, p: int, x: Choice)
    requires LockInv(s) && FamilyInv(s) && StateInv(s) && Enabled(s, p, x) && Taking(s.procs[p].pc)
    ensures Orderly(s, DoExit(s, p), p)
  {
    assert Claims(s.lock, p, s.procs[p].pc);
    assert Knows(s, p) && ParentOk(s, p) && StateOk(p, s.procs[p]);
  }

  lemma GiveOrderly(s: State, p: int, x: Choice)
    requires LockInv(s) && FamilyInv(s) && StateInv(s) && Enabled(s, p, x) && Giving(s.procs[p].pc)
    ensures Orderly(s, DoGive(s, p), p)
  {
    assert Claims(s.lock, p, s.procs[p].pc);
    assert Knows(s, p) && ParentOk(s, p) && StateOk(p, s.procs[p]);
  }

  lemma DieOrderly(s: State, p: int, x: Choice)
    requires LockInv(s) && FamilyInv(s) && StateInv(s) && Enabled(s, p, x) && Dying(s.procs[p].pc)
    ensures Orderly(s, DoDie(s, p), p)
  {
    assert Claims(s.lock, p, s.procs[p].pc);
  }

  lemma WaitOrderly(s: State, p: int, x: Choice)
    requires LockInv(s) && FamilyInv(s) && StateInv(s) && Enabled(s, p, x)
    requires var pc := s.procs[p].pc; pc.Wait1? || pc.Asleep? || pc.Scan? || pc.Found?
    ensures Orderly(s, DoWait(s, p, x), p)
  {
    assert Claims(s.lock, p, s.procs[p].pc);
    hide LockInv, FamilyInv, StateInv;
  }

  lemma ChildOrderly(s: State, p: int, x: Choice)
    requires LockInv(s) && FamilyInv(s) && StateInv(s) && Enabled(s, p, x) && s.procs[p].pc.Child?
    ensures Orderly(s, DoWait(s, p, x), p)
  {
    assert Claims(s.lock, p, s.procs[p].pc);
    hide LockInv, FamilyInv, StateInv;
  }

  // ----- families, waiting and identities

  ghost predicate Rest(s: State) {
    StateInv(s) && FamilyInv(s) && WaitInv(s) && IdInv(s)
  }

  /** Only p's position changes. */
  ghost predicate Quiet(s: State, s': State, p: int) {
    && In(p, |s.procs|) && |s'.procs| == |s.procs| && s'.procs == s.procs[p := s.procs[p].(pc := s'.procs[p].pc)]
    && s'.births == s.births && s'.reaped == s.reaped
  }

  ghost predicate Placed(s: State, p: int)
    requires In(p, |s.procs|)
  {
    StateOk(p, s.procs[p]) && Knows(s, p) && Watched(s, p)
  }

  /** What is required of each process. */
  ghost predicate Fine(s: State, p: int)
    requires In(p, |s.procs|)
  {
    StateOk(p, s.procs[p]) && ParentOk(s, p) && Knows(s, p) && Watched(s, p)
  }

  lemma FineAll(s: State)
    requires IdInv(s) && forall q :: In(q, |s.procs|) ==> Fine(s, q)
    ensures Rest(s)
  {
    hide StateOk, ParentOk, Knows, Watched, IdInv;
    forall q | In(q, |s.procs|) ensures StateOk(q, s.procs[q]) && ParentOk(s, q) && Knows(s, q) && Watched(s, q) {
      assert Fine(s, q);
    }
  }

  lemma FineOne(s: State, p: int)
    requires Rest(s) && In(p, |s.procs|)
    ensures Fine(s, p)
  {
  }

  lemma QuietKeeps(s: State, s': State, p: int)
    requires Rest(s) && Quiet(s, s', p) && Placed(s', p)
    ensures Rest(s')
  {
    hide Rest, Fine, Placed, IdInv;
    QuietId(s, s', p);
    forall q | In(q, |s.procs|) ensures Fine(s', q) {
      FineOne(s, q);
      QuietOther(s, s', p, q);
    }
    FineAll(s');
  }

  lemma QuietId(s: State, s': State, p: int)
    requires Rest(s) && Quiet(s, s', p)
    ensures IdInv(s')
  {
    hide StateInv, FamilyInv, WaitInv;
  }

  lemma QuietOther(s: State, s': State, p: int, q: int)
    requires Quiet(s, s', p) && In(q, |s.procs|) && Fine(s, q) && Placed(s', p)
    ensures Fine(s', q)
  {
    if q == p {
      assert ParentOk(s', p);
    }
  }

  /** A sleeping process is woken up. */
  lemma WokenKeeps(s: State, t: int)
    requires Rest(s) && In(t, |s.procs|)
    ensures Rest(Woken(s, t))
  {
    var s' := Woken(s, t);
    WokenId(s, t);
    hide Rest, Fine, IdInv;
    forall q | In(q, |s.procs|) ensures Fine(s', q) {
      FineOne(s, q);
      FineOne(s, t);
      WokenOther(s, t, q);
    }
    FineAll(s');
  }

  lemma WokenId(s: State, t: int)
    requires Rest(s) && In(t, |s.procs|)
    ensures IdInv(Woken(s, t))
  {
    hide StateInv, FamilyInv, WaitInv;
  }

  lemma WokenOther(s: State, t: int, q: int)
    requires In(t, |s.procs|) && In(q, |s.procs|) && Fine(s, q) && Fine(s, t)
    ensures Fine(Woken(s, t), q)
  {
    var s' := Woken(s, t);
    assert StateOk(q, s'.procs[q]);
    assert ParentOk(s', q);
    assert Knows(s', q);
  }

  /** fork fills slot i. */
  ghost predicate Creates(s: State, s': State, p: int, i: int) {
    && In(p, |s.procs|) && In(i, |s.procs|) && s.procs[p].state == ALIVE && s.procs[i].state == UNUSED
    && s.procs[p].pc.Slot?
    && s'.procs == s.procs[i := Proc(ALIVE, p, Free, s.births, false)][p := s.procs[p].(pc := Free)]
    && s'.births == s.births + 1 && s'.reaped == s.reaped
  }

  lemma CreateKeeps(s: State, s': State, p: int, i: int)
    requires Rest(s) && Creates(s, s', p, i)
    ensures Rest(s')
  {
    CreateId(s, s', p, i);
    hide Rest, Fine, IdInv, Creates;
    forall q | In(q, |s.procs|) ensures Fine(s', q) {
      FineOne(s, q);
      FineOne(s, i);
      CreateOther(s, s', p, i, q);
    }
    FineAll(s');
  }

  lemma CreateId(s: State, s': State, p: int, i: int)
    requires Rest(s) && Creates(s, s', p, i)
    ensures IdInv(s') && |s'.procs| == |s.procs| && In(p, |s.procs|) && In(i, |s.procs|)
  {
    hide StateInv, FamilyInv, WaitInv;
  }

  lemma CreateOther(s: State, s': State, p: int, i: int, q: int)
    requires Creates(s, s', p, i) && In(q, |s.procs|) && Fine(s, q) && Fine(s, i)
    ensures Fine(s', q)
  {
    CreateKnows(s, s', p, i, q);
    hide Knows, Watched;
  }

  lemma CreateKnows(s: State, s': State, p: int, i: int, q: int)
    requires Creates(s, s', p, i) && In(q, |s.procs|) && Fine(s, q) && Fine(s, i)
    ensures Knows(s', q) && Watched(s', q)
  {
  }

  /** reparent gives child i to init. */
  ghost predicate Hands(s: State, s': State, p: int, i: int) {
    && In(p, |s.procs|) && In(i, |s.procs|) && p != i && s.procs[i].parent == p && p != INIT && |s.procs| == |s'.procs|
    && s'.procs == s.procs[i := s.procs[i].(parent := INIT, handed := true)][p := s.procs[p].(pc := s'.procs[p].pc)]
    && s'.births == s.births && s'.reaped == s.reaped
  }

  lemma HandKeeps(s: State, s': State, p: int, i: int)
    requires Rest(s) && Hands(s, s', p, i) && Placed(s', p)
    ensures Rest(s')
  {
    HandId(s, s', p, i);
    hide Rest, Fine, IdInv, Hands, Placed;
    forall q | In(q, |s.procs|) ensures Fine(s', q) {
      FineOne(s, q);
      FineOne(s, i);
      FineOne(s, INIT);
      HandOther(s, s', p, i, q);
    }
    FineAll(s');
  }

  lemma HandId(s: State, s': State, p: int, i: int)
    requires Rest(s) && Hands(s, s', p, i)
    ensures IdInv(s') && |s'.procs| == |s.procs| && In(p, |s.procs|) && In(i, |s.procs|)
  {
    hide StateInv, FamilyInv, WaitInv;
  }

  lemma HandOther(s: State, s': State, p: int, i: int, q: int)
    requires Hands(s, s', p, i) && In(q, |s.procs|) && Fine(s, q) && Fine(s, i) && Fine(s, INIT) && Placed(s', p)
    ensures Fine(s', q)
  {
    assert StateOk(q, s'.procs[q]);
    assert ParentOk(s', q);
    if q != p {
      HandKnows(s, s', p, i, q);
    }
  }

  lemma HandKnows(s: State, s': State, p: int, i: int, q: int)
    requires Hands(s, s', p, i) && In(q, |s.procs|) && q != p && StateOk(q, s.procs[q]) && Knows(s, q) && Watched(s, q)
    ensures Knows(s', q) && Watched(s', q)
  {
  }

  /** exit makes p a zombie, with no children left. */
  ghost predicate Dies(s: State, s': State, p: int) {
    && In(p, |s.procs|) && s.procs[p].pc.Exit8?
    && s'.procs == s.procs[p := s.procs[p].(state := ZOMBIE, pc := Exit9(s.procs[p].pc.was))]
    && s'.births == s.births && s'.reaped == s.reaped && s'.lock == s.lock
  }

  lemma DieKeeps(s: State, s': State, p: int)
    requires LockInv(s) && Rest(s) && Dies(s, s', p)
    ensures Rest(s')
  {
    DieId(s, s', p);
    assert Claims(s.lock, p, s.procs[p].pc);
    assert forall q :: In(q, |s.procs|) ==> Claims(s.lock, q, s.procs[q].pc);
    hide Rest, Fine, IdInv, Dies, LockInv, Claims;
    forall q | In(q, |s.procs|) ensures Fine(s', q) {
      FineOne(s, q);
      FineOne(s, p);
      DieOther(s, s', p, q);
    }
    FineAll(s');
  }

  lemma DieId(s: State, s': State, p: int)
    requires Rest(s) && Dies(s, s', p)
    ensures IdInv(s') && |s'.procs| == |s.procs| && In(p, |s.procs|)
  {
    assert StateOk(p, s.procs[p]);
    hide StateInv, FamilyInv, WaitInv;
  }

  /** The parent of the new zombie is not scanning its children, and not asleep; else it is init and the
      zombie was given to it. */
  lemma DieOther(s: State, s': State, p: int, q: int)
    requires |s.lock| == |s.procs| && Dies(s, s', p) && In(q, |s.procs|) && Fine(s, q) && Fine(s, p)
    requires Claims(s.lock, p, s.procs[p].pc) && Claims(s.lock, q, s.procs[q].pc)
    ensures Fine(s', q)
  {
    DieParent(s, s', p, q);
    DieKnows(s, s', p, q);
    if q != p && s.procs[p].parent == q {
      DieWatched(s, s', p, q);
    }
  }

  lemma DieParent(s: State, s': State, p: int, q: int)
    requires Dies(s, s', p) && In(q, |s.procs|) && Fine(s, q) && Fine(s, p)
    ensures StateOk(q, s'.procs[q]) && ParentOk(s', q)
  {
    hide Watched;
  }

  lemma DieKnows(s: State, s': State, p: int, q: int)
    requires Dies(s, s', p) && In(q, |s.procs|) && Knows(s, q)
    ensures Knows(s', q)
  {
  }

  lemma DieWatched(s: State, s': State, p: int, q: int)
    requires |s.lock| == |s.procs| && Dies(s, s', p) && In(q, |s.procs|) && q != p && Watched(s, q) && Watched(s, p)
             && Knows(s, p)
    requires Claims(s.lock, p, s.procs[p].pc) && Claims(s.lock, q, s.procs[q].pc) && s.procs[p].parent == q
    ensures Watched(s', q)
  {
    var was := s.procs[p].pc.was;
    if q == was {
      assert s.lock[q] == p;
    }
  }

  /** wait puts p to sleep after a scan that found no zombie. */
  ghost predicate Sleeps(s: State, s': State, p: int) {
    && In(p, |s.procs|) && s.procs[p].pc.Scan? && s.procs[p].pc.i == |s.procs|
    && s'.procs == s.procs[p := s.procs[p].(state := SLEEPING, pc := Asleep)]
    && s'.births == s.births && s'.reaped == s.reaped
  }

  lemma SleepKeeps(s: State, s': State, p: int)
    requires LockInv(s) && Rest(s) && Sleeps(s, s', p)
    ensures Rest(s')
  {
    SleepId(s, s', p);
    assert forall q :: In(q, |s.procs|) ==> Claims(s.lock, q, s.procs[q].pc);
    hide Rest, Fine, IdInv, Sleeps, LockInv, Claims;
    forall q | In(q, |s.procs|) ensures Fine(s', q) {
      FineOne(s, q);
      FineOne(s, p);
      SleepOther(s, s', p, q);
    }
    FineAll(s');
  }

  lemma SleepId(s: State, s': State, p: int)
    requires Rest(s) && Sleeps(s, s', p)
    ensures IdInv(s') && |s'.procs| == |s.procs| && In(p, |s.procs|)
  {
    assert StateOk(p, s.procs[p]);
    hide StateInv, FamilyInv, WaitInv;
  }

  lemma SleepOther(s: State, s': State, p: int, q: int)
    requires |s.lock| == |s.procs| && Sleeps(s, s', p) && In(q, |s.procs|) && Fine(s, q) && Fine(s, p)
    requires Claims(s.lock, p, s.procs[p].pc) && Claims(s.lock, q, s.procs[q].pc)
    ensures Fine(s', q)
  {
    hide Claims;
    SleepParent(s, s', p, q);
    SleepWatched(s, s', p, q);
  }

  lemma SleepParent(s: State, s': State, p: int, q: int)
    requires Sleeps(s, s', p) && In(q, |s.procs|) && Fine(s, q) && Fine(s, p)
    ensures StateOk(q, s'.procs[q]) && ParentOk(s', q) && Knows(s', q)
  {
    hide Watched;
  }

  lemma SleepWatched(s: State, s': State, p: int, q: int)
    requires |s.lock| == |s.procs| && Sleeps(s, s', p) && In(q, |s.procs|) && Watched(s, q) && Watched(s, p)
    requires Claims(s.lock, p, s.procs[p].pc) && Claims(s.lock, q, s.procs[q].pc)
    ensures Watched(s', q)
  {
  }

  /** wait frees the zombie in slot i. */
  ghost predicate Reaps(s: State, s': State, p: int, i: int) {
    && In(p, |s.procs|) && In(i, |s.procs|) && p != i && s.procs[p].pc == Child(i) && s.procs[i].state == ZOMBIE
    && s'.procs == s.procs[i := NoProc()][p := s.procs[p].(pc := Free)] && s'.births == s.births
    && s'.reaped == s.reaped + [s.procs[i].id]
  }

  lemma ReapKeeps(s: State, s': State, p: int, i: int)
    requires Rest(s) && Reaps(s, s', p, i)
    ensures Rest(s')
  {
    ReapId(s, s', p, i);
    hide Rest, Fine, IdInv, Reaps;
    forall q | In(q, |s.procs|) ensures Fine(s', q) {
      FineOne(s, q);
      FineOne(s, i);
      FineOne(s, p);
      ReapOther(s, s', p, i, q);
    }
    FineAll(s');
  }

  lemma ReapId(s: State, s': State, p: int, i: int)
    requires IdInv(s) && Reaps(s, s', p, i) && Used(s.procs[p]) && Used(s.procs[i])
    ensures IdInv(s') && |s'.procs| == |s.procs| && In(p, |s.procs|) && In(i, |s.procs|)
  {
    forall q | In(q, |s'.procs|) && s'.procs[q].state != UNUSED
      ensures In(q, |s.procs|) && q != i && s'.procs[q].id == s.procs[q].id && s.procs[q].state != UNUSED
    {
    }
  }

  lemma ReapOther(s: State, s': State, p: int, i: int, q: int)
    requires Reaps(s, s', p, i) && In(q, |s.procs|) && Fine(s, q) && Fine(s, i) && Fine(s, p)
    ensures Fine(s', q)
  {
    ReapParent(s, s', p, i, q);
    if q != p && q != i {
      ReapKnows(s, s', p, i, q);
    }
  }

  lemma ReapParent(s: State, s': State, p: int, i: int, q: int)
    requires Reaps(s, s', p, i) && In(q, |s.procs|) && Fine(s, q) && Fine(s, i) && Fine(s, p)
    ensures StateOk(q, s'.procs[q]) && ParentOk(s', q)
  {
    hide Knows, Watched;
  }

  lemma ReapKnows(s: State, s': State, p: int, i: int, q: int)
    requires Reaps(s, s', p, i) && In(q, |s.procs|) && q != p && q != i && ParentOk(s, i) && Knows(s, p) && Knows(s, q)
             && Watched(s, q)
    ensures Knows(s', q) && Watched(s', q)
  {
  }

  // ----- every step keeps the invariant

  lemma BeginKeeps(s: State, p: int, x: Choice)
    requires Inv(s) && Enabled(s, p, x) && s.procs[p].pc.Free?
    ensures Inv(Do(s, p, x))
  {
    var s' := Do(s, p, x);
    assert StateOk(p, s.procs[p]);
    assert Placed(s', p);
    hide StateInv, FamilyInv, WaitInv, IdInv;
    OrderlyKeeps(s, s', p);
    QuietKeeps(s, s', p);
  }

  lemma ForkQuiet(s: State, p: int, x: Choice)
    requires Enabled(s, p, x) && Forking(s.procs[p].pc) && StateOk(p, s.procs[p]) && Claims(s.lock, p, s.procs[p].pc)
    ensures var pc, s' := s.procs[p].pc, DoFork(s, p, x);
            if pc.Slot? && s.procs[pc.i].state == UNUSED && !x.Fail? then Creates(s, s', p, pc.i)
              else Quiet(s, s', p) && Placed(s', p)
  {
  }

  lemma ForkKeeps(s: State, p: int, x: Choice)
    requires Inv(s) && Enabled(s, p, x) && Forking(s.procs[p].pc)
    ensures Inv(DoFork(s, p, x))
  {
    var s' := DoFork(s, p, x);
    assert StateOk(p, s.procs[p]) && Claims(s.lock, p, s.procs[p].pc);
    hide LockInv, StateInv, FamilyInv, WaitInv, IdInv, Orderly, DoFork, Creates, Quiet, Placed;
    ForkOrderly(s, p, x);
    OrderlyKeeps(s, s', p);
    ForkQuiet(s, p, x);
    var pc := s.procs[p].pc;
    if pc.Slot? && s.procs[pc.i].state == UNUSED && !x.Fail? {
      CreateKeeps(s, s', p, pc.i);
    } else {
      QuietKeeps(s, s', p);
    }
  }

  lemma TakeQuiet(s: State, p: int, x: Choice)
    requires Enabled(s, p, x) && Taking(s.procs[p].pc) && StateOk(p, s.procs[p]) && Knows(s, p) && ParentOk(s, p)
    ensures Quiet(if s.procs[p].pc.Exit2? then Woken(s, INIT) else s, DoExit(s, p), p) && Placed(DoExit(s, p), p)
  {
  }

  lemma TakeKeeps(s: State, p: int, x: Choice)
    requires Inv(s) && Enabled(s, p, x) && Taking(s.procs[p].pc)
    ensures Inv(DoExit(s, p))
  {
    var s' := DoExit(s, p);
    assert StateOk(p, s.procs[p]) && Knows(s, p) && ParentOk(s, p);
    hide LockInv, StateInv, FamilyInv, WaitInv, IdInv, Orderly, DoExit, Quiet, Placed, Woken;
    TakeOrderly(s, p, x);
    OrderlyKeeps(s, s', p);
    TakeQuiet(s, p, x);
    WokenKeeps(s, INIT);
    QuietKeeps(if s.procs[p].pc.Exit2? then Woken(s, INIT) else s, s', p);
  }

  lemma GiveQuiet(s: State, p: int, x: Choice)
    requires Enabled(s, p, x) && Giving(s.procs[p].pc) && StateOk(p, s.procs[p]) && Knows(s, p)
             && Claims(s.lock, p, s.procs[p].pc)
    ensures var s' := DoGive(s, p);
            Placed(s', p) && if s.procs[p].pc.Given? then Hands(s, s', p, s.procs[p].pc.i) else Quiet(s, s', p)
  {
  }

  lemma GiveKeeps(s: State, p: int, x: Choice)
    requires Inv(s) && Enabled(s, p, x) && Giving(s.procs[p].pc)
    ensures Inv(DoGive(s, p))
  {
    var s' := DoGive(s, p);
    assert StateOk(p, s.procs[p]) && Knows(s, p) && Claims(s.lock, p, s.procs[p].pc);
    hide LockInv, StateInv, FamilyInv, WaitInv, IdInv, Orderly, DoGive, Quiet, Hands, Placed;
    GiveOrderly(s, p, x);
    OrderlyKeeps(s, s', p);
    GiveQuiet(s, p, x);
    if s.procs[p].pc.Given? {
      HandKeeps(s, s', p, s.procs[p].pc.i);
    } else {
      QuietKeeps(s, s', p);
    }
  }

  lemma DyingQuiet(s: State, p: int, x: Choice)
    requires Enabled(s, p, x) && Dying(s.procs[p].pc) && StateOk(p, s.procs[p]) && Knows(s, p)
             && Claims(s.lock, p, s.procs[p].pc)
    ensures var pc, s' := s.procs[p].pc, DoDie(s, p);
            && (pc.Exit8? ==> Dies(s, s', p))
            && (!pc.Exit8? ==> Placed(s', p) && Quiet(if pc.Exit7? then Woken(s, pc.was) else s, s', p))
  {
  }

  lemma DyingKeeps(s: State, p: int, x: Choice)
    requires Inv(s) && Enabled(s, p, x) && Dying(s.procs[p].pc)
    ensures Inv(DoDie(s, p))
  {
    var s' := DoDie(s, p);
    assert StateOk(p, s.procs[p]) && Knows(s, p) && Claims(s.lock, p, s.procs[p].pc);
    hide LockInv, StateInv, FamilyInv, WaitInv, IdInv, Orderly, DoDie, Quiet, Dies, Placed, Woken;
    DieOrderly(s, p, x);
    OrderlyKeeps(s, s', p);
    DyingQuiet(s, p, x);
    var pc := s.procs[p].pc;
    if pc.Exit8? {
      DieKeeps(s, s', p);
    } else if pc.Exit7? {
      WokenKeeps(s, pc.was);
      QuietKeeps(Woken(s, pc.was), s', p);
    } else {
      QuietKeeps(s, s', p);
    }
  }

  lemma WaitQuiet(s: State, p: int, x: Choice)
    requires Enabled(s, p, x) && StateOk(p, s.procs[p]) && Knows(s, p) && Watched(s, p)
             && Claims(s.lock, p, s.procs[p].pc)
    requires var pc := s.procs[p].pc; pc.Wait1? || pc.Asleep? || pc.Scan? || pc.Found?
    ensures var s' := DoWait(s, p, x);
            && |s'.procs| == |s.procs|
            && if s'.procs[p].state == SLEEPING then Sleeps(s, s', p) else Quiet(s, s', p) && Placed(s', p)
  {
  }

  lemma WaitKeeps(s: State, p: int, x: Choice)
    requires Inv(s) && Enabled(s, p, x)
    requires var pc := s.procs[p].pc; pc.Wait1? || pc.Asleep? || pc.Scan? || pc.Found?
    ensures Inv(DoWait(s, p, x))
  {
    var s' := DoWait(s, p, x);
    assert StateOk(p, s.procs[p]) && Knows(s, p) && Watched(s, p) && Claims(s.lock, p, s.procs[p].pc);
    hide LockInv, StateInv, FamilyInv, WaitInv, IdInv, Orderly, DoWait, Quiet, Sleeps, Placed;
    WaitOrderly(s, p, x);
    OrderlyKeeps(s, s', p);
    WaitQuiet(s, p, x);
    if s'.procs[p].state == SLEEPING {
      SleepKeeps(s, s', p);
    } else {
      QuietKeeps(s, s', p);
    }
  }

  lemma ChildQuiet(s: State, p: int, x: Choice)
    requires Enabled(s, p, x) && s.procs[p].pc.Child? && StateOk(p, s.procs[p]) && Watched(s, p)
             && Claims(s.lock, p, s.procs[p].pc)
    ensures var i, s' := s.procs[p].pc.i, DoWait(s, p, x);
            if s.procs[i].state == ZOMBIE && !x.Fail? then Reaps(s, s', p, i) else Quiet(s, s', p) && Placed(s', p)
  {
  }

  lemma ChildKeeps(s: State, p: int, x: Choice)
    requires Inv(s) && Enabled(s, p, x) && s.procs[p].pc.Child?
    ensures Inv(DoWait(s, p, x))
  {
    var s' := DoWait(s, p, x);
    assert StateOk(p, s.procs[p]) && Watched(s, p) && Claims(s.lock, p, s.procs[p].pc);
    hide LockInv, StateInv, FamilyInv, WaitInv, IdInv, Orderly, DoWait, Quiet, Reaps, Placed;
    ChildOrderly(s, p, x);
    OrderlyKeeps(s, s', p);
    ChildQuiet(s, p, x);
    var i := s.procs[p].pc.i;
    if s.procs[i].state == ZOMBIE && !x.Fail? {
      ReapKeeps(s, s', p, i);
    } else {
      QuietKeeps(s, s', p);
    }
  }

  lemma StepKeeps(s: State, s': State)
    requires Inv(s) && Step(s, s')
    ensures Inv(s')
  {
    if Killed(s, s') {
      var p :| 0 <= p < |s.procs| == |s.lock| && s.lock[p] == -1 && s' == Woken(s, p);
      WokenKeeps(s, p);
    } else {
      var p, x :| Enabled(s, p, x) && s' == Do(s, p, x);
      var pc := s.procs[p].pc;
      hide Inv, DoFork, DoExit, DoGive, DoDie, DoWait;
      if pc.Free? {
        BeginKeeps(s, p, x);
      } else if Forking(pc) {
        ForkKeeps(s, p, x);
      } else if Taking(pc) {
        TakeKeeps(s, p, x);
      } else if Giving(pc) {
        GiveKeeps(s, p, x);
      } else if Dying(pc) {
        DyingKeeps(s, p, x);
      } else if pc.Child? {
        ChildKeeps(s, p, x);
      } else {
        WaitKeeps(s, p, x);
      }
    }
  }

  lemma InitInv(s: State)
    requires Init(s)
    ensures Inv(s)
  {
  }

  lemma {:induction false} RunInv(ss: seq<State>)
    requires Run(ss)
    ensures Inv(ss[|ss| - 1])
  {
    hide Inv, Step, Init;
    if |ss| == 1 {
      InitInv(ss[0]);
    } else {
      var n := |ss| - 1;
      forall i, j | 0 <= i && j == i + 1 && j < n ensures Step(ss[..n][i], ss[..n][j]) {
        assert Step(ss[i], ss[j]);
      }
      RunInv(ss[..n]);
      assert ss[..n][n - 1] == ss[n - 1];
      assert Step(ss[n - 1], ss[n]);
      StepKeeps(ss[n - 1], ss[n]);
    }
  }

  // ----- what it gives

  /** In every run no process has a parent that is a zombie or gone, and every process but init has a parent. */
  lemma ParentsLive(ss: seq<State>, p: int)
    requires Run(ss)
    ensures var s := ss[|ss| - 1];
            In(p, |s.procs|) ==>
              && (s.procs[p].parent != -1 ==>
                    && In(s.procs[p].parent, |s.procs|) && s.procs[s.procs[p].parent].state != ZOMBIE
                    && s.procs[s.procs[p].parent].state != UNUSED)
              && (s.procs[p].parent == -1 <==> p == INIT || s.procs[p].state == UNUSED)
  {
    RunInv(ss);
    var s := ss[|ss| - 1];
    if In(p, |s.procs|) {
      assert ParentOk(s, p);
    }
  }

  /** In every run, whoever frees a process in wait is its parent at that moment and the process is a zombie
      nobody has reaped before and that has left its kernel stack for good; no process is ever reaped twice. */
  lemma ReapedOnceByParent(ss: seq<State>, p: int, x: Choice, i: int)
    requires Run(ss)
    requires var s := ss[|ss| - 1];
             && Enabled(s, p, x) && In(i, |s.procs|) && s.procs[i].state != UNUSED
             && Do(s, p, x).procs[i].state == UNUSED
    ensures var s := ss[|ss| - 1];
            && s.procs[i].state == ZOMBIE && s.procs[i].pc == Dead && s.procs[i].parent == p
            && s.procs[i].id !in s.reaped
            && Do(s, p, x).reaped == s.reaped + [s.procs[i].id]
            && forall j, k :: 0 <= j < k < |s.reaped| ==> s.reaped[j] != s.reaped[k]
  {
    RunInv(ss);
    var s := ss[|ss| - 1];
    assert Knows(s, p) && StateOk(p, s.procs[p]) && StateOk(i, s.procs[i]);
    assert Claims(s.lock, p, s.procs[p].pc) && Claims(s.lock, i, s.procs[i].pc);
    hide LockInv, StateInv, FamilyInv, WaitInv, Do;
    OnlyWaitFrees(s, p, x, i);
  }

  lemma OnlyWaitFrees(s: State, p: int, x: Choice, i: int)
    requires Enabled(s, p, x) && In(i, |s.procs|) && s.procs[i].state != UNUSED && Do(s, p, x).procs[i].state == UNUSED
    ensures s.procs[p].pc == Child(i) && s.procs[i].state == ZOMBIE && Do(s, p, x).reaped == s.reaped + [s.procs[i].id]
  {
    var pc := s.procs[p].pc;
    if Forking(pc) || Taking(pc) || Giving(pc) || Dying(pc) || pc.Free? {
      OthersFreeNone(s, p, x, i);
    }
  }

  lemma OthersFreeNone(s: State, p: int, x: Choice, i: int)
    requires Enabled(s, p, x) && In(i, |s.procs|) && s.procs[i].state != UNUSED
    requires var pc := s.procs[p].pc; Forking(pc) || Taking(pc) || Giving(pc) || Dying(pc) || pc.Free?
    ensures Do(s, p, x).procs[i].state != UNUSED
  {
  }

  /** In every run, a process asleep in wait has no zombie child, except that init may have one that another
      process handed over to it when it exited. */
  lemma SleeperHasNoZombie(ss: seq<State>, p: int, q: int)
    requires Run(ss)
    ensures var s := ss[|ss| - 1];
            In(p, |s.procs|) && In(q, |s.procs|) && s.procs[p].state == SLEEPING && s.procs[q].parent == p
              && s.procs[q].state == ZOMBIE ==>
              p == INIT && s.procs[q].handed
  {
    RunInv(ss);
    var s := ss[|ss| - 1];
    if In(p, |s.procs|) {
      assert StateOk(p, s.procs[p]) && Watched(s, p);
    }
  }
}
