/**
 * The scheduler, sleep and wakeup of kernel/proc.c together with the sleep locks of kernel/sleeplock.c, as a
 * step relation over any number of processes and CPUs.  A step is what a CPU does between two spinlock
 * operations.  swtch passes control between a process's kernel thread and its CPU's scheduler thread, with
 * the process's lock held by that CPU throughout.  Processes also sleep for other things, with or without the
 * sleep lock, exit, are reaped, and their slots and kernel stacks are used again.
 */
module Scheduling {

  datatype PState = UNUSED | RUNNABLE | RUNNING | SLEEPING | ZOMBIE

  /** What a process does to another one while holding its lock: wakeup's test, kill, wait and fork. */
  datatype Act = Wake(ch: int) | Kill | Reap | Make

  /** Where a process's kernel thread is.  One sleep lock is followed; `lk` is its spinlock.  k is where to go on
      after a detour, own says that the detour is made holding the process's lock. */
  datatype Pc =
    | None                 // no process
    | New                  // not run yet
    | First                // forkret, holding the process's lock
    | Idle                 // holding nothing
    | Want                 // acquiresleep, about to acquire lk
    | Test                 // holding lk, about to look at locked
    | Sleep1               // sleep: holding lk, about to acquire the process's lock
    | Sleep2               // holding both, about to release lk
    | Sleep3               // holding the process's lock, about to change state
    | Sleep4               // state changed, about to swtch
    | Asleep               // switched out
    | Awake                // switched in again, holding the process's lock
    | Got                  // locked set, about to release lk
    | Inside               // holding the sleep lock
    | Leave                // releasesleep, about to acquire lk
    | Clear                // holding lk, about to clear locked
    | Scan(i: int)         // wakeup: holding lk, about to acquire process i's lock
    | Look(i: int)         // holding process i's lock too
    | Yield1(k: Pc)        // yield: about to acquire the process's lock
    | Yield2(k: Pc)        // holding it, about to change state
    | Yield3(k: Pc)        // state changed, about to swtch
    | Yielded(k: Pc)       // switched out
    | Yield4(k: Pc)        // switched in again, holding the process's lock
    | Nap1(k: Pc, ch: int, own: bool)   // sleep on ch, own: called with the process's lock; about to acquire it
    | Nap2(k: Pc, ch: int, own: bool)   // holding it, about to change state
    | Nap3(k: Pc, own: bool)            // state changed, about to swtch
    | Napping(k: Pc, own: bool)         // switched out
    | Nap4(k: Pc, own: bool)            // switched in again, holding the process's lock
    | Grab(k: Pc)                       // wait: about to acquire the process's lock
    | Hold(k: Pc)                       // holding it, in the caller that sleeps with it
    | Visit(i: int, k: Pc, own: bool, a: Act)   // about to acquire process i's lock
    | Touch(i: int, k: Pc, own: bool, a: Act)   // holding it
    | Die1                 // exit: about to acquire the process's lock
    | Die2                 // holding it, about to become a zombie
    | Die3                 // zombie, about to swtch
    | Dead                 // switched out for good

  /** chan is what the process sleeps for, 0 for nothing.  cpu is the CPU executing its kernel thread, -1 if none. */
  datatype Proc = Proc(state: PState, chan: int, pc: Pc, cpu: int)

  /** The channel of the sleep lock. */
  const LOCK: int := 1

  /** A CPU's scheduler thread. */
  datatype Sched = Loop | Have(p: int) | Back(p: int) | Away

  /** run is the process whose kernel thread the CPU executes, -1 for the scheduler thread. */
  datatype Cpu = Cpu(run: int, sched: Sched)

  /** plock[p] and lk: the CPU holding the spinlock, -1 if it is free. */
  datatype State = State(procs: seq<Proc>, cpus: seq<Cpu>, plock: seq<int>, lk: int, locked: bool, owner: int)

  predicate SwitchedOut(pc: Pc) {
    pc.None? || pc.New? || pc.Asleep? || pc.Yielded? || pc.Napping? || pc.Dead?
  }

  predicate HoldsOwn(pc: Pc) {
    || pc.First? || pc.Sleep2? || pc.Sleep3? || pc.Sleep4? || pc.Awake? || pc.Yield2? || pc.Yield3? || pc.Yield4?
    || pc.Nap2? || pc.Nap3? || pc.Nap4? || pc.Hold? || pc.Die2? || pc.Die3?
    || (pc.Visit? && pc.own) || (pc.Touch? && pc.own)
  }

  predicate HoldsLk(pc: Pc) {
    || pc.Test? || pc.Sleep1? || pc.Sleep2? || pc.Got? || pc.Clear? || pc.Scan? || pc.Look?
  }

  /** The process whose lock is held besides or instead of one's own, -1 for none. */
  function Held(pc: Pc): int { if pc.Look? || pc.Touch? then pc.i else -1 }

  /** Nothing is held, so a timer interrupt may make the process yield. */
  predicate Preemptible(pc: Pc) { pc.Idle? || pc.Want? || pc.Inside? || pc.Leave? }

  predicate Yielding(pc: Pc) { pc.Yield1? || pc.Yield2? || pc.Yield3? || pc.Yielded? || pc.Yield4? }

  predicate Napper(pc: Pc) { pc.Nap1? || pc.Nap2? || pc.Nap3? || pc.Napping? || pc.Nap4? || pc.Grab? || pc.Hold? }

  predicate Visiting(pc: Pc) { pc.Visit? || pc.Touch? }

  function Home(pc: Pc): Pc {
    if Yielding(pc) || Napper(pc) || Visiting(pc) then pc.k else pc
  }

  /** The process has the sleep lock. */
  predicate HasLock(pc: Pc) {
    var h := Home(pc);
    h.Got? || h.Inside? || h.Leave? || h.Clear?
  }

  predicate Open(k: Pc) { k.Idle? || k.Inside? }

  predicate PcOk(pc: Pc, n: int) {
    && (pc.Scan? ==> 0 <= pc.i <= n)
    && (pc.Look? || Visiting(pc) ==> 0 <= pc.i < n)
    && (Yielding(pc) ==> Preemptible(pc.k))
    && (Napper(pc) || Visiting(pc) ==> Open(pc.k))
    && (pc.Nap1? || pc.Nap2? ==> pc.ch != LOCK)
  }

  // ----- steps

  /** What a CPU does next: its scheduler thread's turn with a process, or a turn of the running process,
      going on with k where the process has a choice. */
  datatype Turn =
    | Acquire(p: int)      // scheduler: acquire p's lock
    | Skip                 // p is not runnable: release its lock
    | SwitchTo             // swtch to p
    | Release              // back from p: release its lock
    | Go(k: Pc)            // running process: a turn; k is where to go from Idle, Inside and Hold, or Yield1

  ghost function Put(s: State, p: int, q: Proc): State
    requires 0 <= p < |s.procs|
  {
    s.(procs := s.procs[p := q])
  }

  /** A process may sleep on another channel, or reach for its own or another process's lock. */
  predicate Calls(h: Pc, k: Pc, n: int) {
    || (k.Nap1? && k.k == h && k.ch != LOCK) || (k.Visit? && k.k == h && !k.own && 0 <= k.i < n)
    || (k.Grab? && k.k == h)
  }

  /** The same while holding its own lock. */
  predicate CallsOwn(h: Pc, k: Pc, n: int) {
    (k.Nap2? && k.k == h && k.own && k.ch != LOCK) || (k.Visit? && k.k == h && k.own && 0 <= k.i < n)
  }

  ghost predicate MayGo(s: State, p: int, k: Pc)
    requires 0 <= p < |s.procs| == |s.plock|
  {
    var pc := s.procs[p].pc;
    if k == Yield1(pc) then Preemptible(pc)
    else match pc
      case Idle => k == Want || k == Die1 || Calls(pc, k, |s.procs|)
      case Inside => k == Leave || Calls(pc, k, |s.procs|)
      case Hold(h) => k == h || CallsOwn(h, k, |s.procs|)
      case Want => s.lk == -1
      case Leave => s.lk == -1
      case Sleep1 => s.plock[p] == -1
      case Yield1(_) => s.plock[p] == -1
      case Nap1(_, _, _) => s.plock[p] == -1
      case Grab(_) => s.plock[p] == -1
      case Die1 => s.plock[p] == -1
      case Visit(i, _, _, _) => 0 <= i < |s.procs| && s.plock[i] == -1
      case Touch(i, _, _, _) => 0 <= i < |s.procs|
      case Scan(i) => i < |s.procs| ==> 0 <= i && s.plock[i] == -1
      case Look(i) => 0 <= i < |s.procs|
      case _ => !SwitchedOut(pc)
  }

  function NoProc(): Proc { Proc(UNUSED, 0, None, -1) }

  function NewProc(): Proc { Proc(RUNNABLE, 0, New, -1) }

  /** What becomes of the process that is acted on. */
  function Acted(q: Proc, a: Act): Proc {
    match a
    case Wake(ch) => if q.state == SLEEPING && q.chan == ch then q.(state := RUNNABLE) else q
    case Kill => if q.state == SLEEPING then q.(state := RUNNABLE) else q
    case Reap => if q.state == ZOMBIE then NoProc() else q
    case Make => if q.state == UNUSED then NewProc() else q
  }

  ghost function FreeOwn(s: State, p: int, q: Proc): State
    requires 0 <= p < |s.procs| == |s.plock|
  {
    Put(s, p, q).(plock := s.plock[p := -1])
  }

  ghost function TakeOwn(s: State, c: int, p: int, q: Proc): State
    requires 0 <= p < |s.procs| == |s.plock|
  {
    Put(s, p, q).(plock := s.plock[p := c])
  }

  ghost function SwitchOut(s: State, c: int, p: int, pc: Pc): State
    requires 0 <= p < |s.procs| && 0 <= c < |s.cpus|
  {
    Put(s, p, s.procs[p].(pc := pc, cpu := -1)).(cpus := s.cpus[c := Cpu(-1, Back(p))])
  }

  /** p acts on process i, releases its lock and goes on at pc. */
  ghost function ActOn(s: State, p: int, i: int, a: Act, pc: Pc): State
    requires 0 <= p < |s.procs| == |s.plock| && 0 <= i < |s.procs|
  {
    var s1 := Put(s, i, Acted(s.procs[i], a));
    Put(s1, p, s1.procs[p].(pc := pc)).(plock := s.plock[i := -1])
  }

  /** A turn that moves no lock: k is where the process goes on. */
  predicate Moves(pc: Pc, k: Pc) {
    pc.Idle? || pc.Inside? || k == Yield1(pc) || (pc.Nap4? && pc.own) || (pc.Hold? && k != pc.k)
  }

  function Moved(q: Proc, k: Pc): Proc {
    if q.pc.Nap4? then q.(pc := Hold(q.pc.k), chan := 0) else q.(pc := k)
  }

  /** A turn that sets the process's state. */
  predicate Changes(pc: Pc) { pc.Sleep3? || pc.Yield2? || pc.Nap2? || pc.Die2? }

  function Changed(q: Proc): Proc
    requires Changes(q.pc)
  {
    match q.pc
    case Sleep3 => q.(pc := Sleep4, state := SLEEPING, chan := LOCK)
    case Yield2(h) => q.(pc := Yield3(h), state := RUNNABLE)
    case Nap2(h, ch, own) => q.(pc := Nap3(h, own), state := SLEEPING, chan := ch)
    case Die2 => q.(pc := Die3, state := ZOMBIE)
  }

  /** A turn that releases the process's lock. */
  predicate Frees(pc: Pc, k: Pc) {
    pc.First? || pc.Awake? || pc.Yield4? || (pc.Nap4? && !pc.own) || (pc.Hold? && k == pc.k)
  }

  function Freed(q: Proc): Proc {
    match q.pc
    case First => q.(pc := Idle)
    case Awake => q.(pc := Want, chan := 0)
    case Nap4(h, _) => q.(pc := h, chan := 0)
    case _ => q.(pc := Home(q.pc))
  }

  /** A turn that acquires it. */
  predicate Takes(pc: Pc) { pc.Yield1? || pc.Nap1? || pc.Grab? || pc.Die1? }

  function Taken(q: Proc): Proc
    requires Takes(q.pc)
  {
    match q.pc
    case Yield1(h) => q.(pc := Yield2(h))
    case Nap1(h, ch, own) => q.(pc := Nap2(h, ch, own))
    case Grab(h) => q.(pc := Hold(h))
    case Die1 => q.(pc := Die2)
  }

  /** swtch to the scheduler. */
  predicate Switches(pc: Pc) { pc.Sleep4? || pc.Yield3? || pc.Nap3? || pc.Die3? }

  function Out(pc: Pc): Pc
    requires Switches(pc)
  {
    match pc
    case Sleep4 => Asleep
    case Yield3(h) => Yielded(h)
    case Nap3(h, own) => Napping(h, own)
    case Die3 => Dead
  }

  /** A turn that acts on the process whose lock is held, and releases it. */
  predicate Acts(pc: Pc) { pc.Look? || pc.Touch? }

  function ActOf(pc: Pc): Act
    requires Acts(pc)
  {
    if pc.Look? then Wake(LOCK) else pc.a
  }

  function After(pc: Pc): Pc
    requires Acts(pc)
  {
    if pc.Look? then Scan(pc.i + 1) else if pc.own then Hold(pc.k) else pc.k
  }

  /** The other turns: those on lk and on the sleep lock, and reaching for another process's lock. */
  ghost function Locking(s: State, c: int, p: int): State
    requires 0 <= p < |s.procs| == |s.plock|
  {
    var q := s.procs[p];
    match q.pc
    case Want => Put(s, p, q.(pc := Test)).(lk := c)
    case Test =>
      if s.locked then Put(s, p, q.(pc := Sleep1)) else Put(s, p, q.(pc := Got)).(locked := true, owner := p)
    case Sleep1 => TakeOwn(s, c, p, q.(pc := Sleep2))
    case Sleep2 => Put(s, p, q.(pc := Sleep3)).(lk := -1)
    case Got => Put(s, p, q.(pc := Inside)).(lk := -1)
    case Leave => Put(s, p, q.(pc := Clear)).(lk := c)
    case Clear => Put(s, p, q.(pc := Scan(0))).(locked := false, owner := -1)
    case Scan(i) =>
      if 0 <= i < |s.procs| then Put(s, p, q.(pc := Look(i))).(plock := s.plock[i := c])
      else Put(s, p, q.(pc := Idle)).(lk := -1)
    case Visit(i, h, own, a) =>
      if 0 <= i < |s.procs| then Put(s, p, q.(pc := Touch(i, h, own, a))).(plock := s.plock[i := c]) else s
    case _ => s
  }

  /** A turn of process p on CPU c. */
  ghost function Gone(s: State, c: int, p: int, k: Pc): State
    requires 0 <= p < |s.procs| == |s.plock| && 0 <= c < |s.cpus| && MayGo(s, p, k)
  {
    var q := s.procs[p];
    if Moves(q.pc, k) then Put(s, p, Moved(q, k))
    else if Changes(q.pc) then Put(s, p, Changed(q))
    else if Frees(q.pc, k) then FreeOwn(s, p, Freed(q))
    else if Takes(q.pc) then TakeOwn(s, c, p, Taken(q))
    else if Switches(q.pc) then SwitchOut(s, c, p, Out(q.pc))
    else if Acts(q.pc) then ActOn(s, p, q.pc.i, ActOf(q.pc), After(q.pc))
    else Locking(s, c, p)
  }

  /** Where a process goes on when it is switched in. */
  function Resumed(pc: Pc): Pc {
    match pc
    case Asleep => Awake
    case Yielded(k) => Yield4(k)
    case Napping(k, own) => Nap4(k, own)
    case _ => First
  }

  ghost predicate Picked(s: State, c: int)
    requires 0 <= c < |s.cpus|
  {
    s.cpus[c].run == -1 && s.cpus[c].sched.Have? && 0 <= s.cpus[c].sched.p < |s.procs|
  }

  ghost predicate Enabled(s: State, c: int, t: Turn) {
    && 0 <= c < |s.cpus| && |s.plock| == |s.procs|
    && match t
       case Acquire(p) => s.cpus[c].run == -1 && s.cpus[c].sched == Loop && 0 <= p < |s.procs| && s.plock[p] == -1
       case Skip => Picked(s, c) && s.procs[s.cpus[c].sched.p].state != RUNNABLE
       case SwitchTo => Picked(s, c) && s.procs[s.cpus[c].sched.p].state == RUNNABLE
       case Release => s.cpus[c].run == -1 && s.cpus[c].sched.Back? && 0 <= s.cpus[c].sched.p < |s.procs|
       case Go(k) => 0 <= s.cpus[c].run < |s.procs| && MayGo(s, s.cpus[c].run, k)
  }

  ghost function Do(s: State, c: int, t: Turn): State
    requires Enabled(s, c, t)
  {
    match t
    case Acquire(p) => s.(plock := s.plock[p := c], cpus := s.cpus[c := Cpu(-1, Have(p))])
    case Skip => s.(plock := s.plock[s.cpus[c].sched.p := -1], cpus := s.cpus[c := Cpu(-1, Loop)])
    case SwitchTo =>
      var p := s.cpus[c].sched.p;
      Put(s, p, Proc(RUNNING, s.procs[p].chan, Resumed(s.procs[p].pc), c)).(cpus := s.cpus[c := Cpu(p, Away)])
    case Release => s.(plock := s.plock[s.cpus[c].sched.p := -1], cpus := s.cpus[c := Cpu(-1, Loop)])
    case Go(k) => Gone(s, c, s.cpus[c].run, k)
  }

  /** An interrupt handler wakes a sleeping process up. */
  ghost predicate Interrupted(s: State, s': State) {
    exists p, ch :: 0 <= p < |s.procs| == |s.plock| && s.plock[p] == -1 && s' == Put(s, p, Acted(s.procs[p], Wake(ch)))
  }

  ghost predicate Step(s: State, s': State) {
    Interrupted(s, s') || exists c, t :: Enabled(s, c, t) && s' == Do(s, c, t)
  }

  ghost predicate Init(s: State) {
    && |s.plock| == |s.procs| && s.lk == -1 && !s.locked
    && (forall p :: 0 <= p < |s.procs| ==> s.procs[p] == (if p == 0 then NewProc() else NoProc()) && s.plock[p] == -1)
    && (forall c :: 0 <= c < |s.cpus| ==> s.cpus[c] == Cpu(-1, Loop))
  }

  ghost predicate Run(ss: seq<State>) {
    |ss| > 0 && Init(ss[0]) && forall i, j :: 0 <= i && j == i + 1 && j < |ss| ==> Step(ss[i], ss[j])
  }

  // ----- the invariant

  predicate StateOk(q: Proc) {
    match q.pc
    case None => q.state == UNUSED
    case New => q.state == RUNNABLE
    case Yielded(_) => q.state == RUNNABLE
    case Yield3(_) => q.state == RUNNABLE
    case Sleep4 => q.state == SLEEPING && q.chan == LOCK
    case Asleep => q.chan == LOCK && (q.state == SLEEPING || q.state == RUNNABLE)
    case Nap3(_, _) => q.state == SLEEPING && q.chan != LOCK
    case Napping(_, _) => q.chan != LOCK && (q.state == SLEEPING || q.state == RUNNABLE)
    case Die3 => q.state == ZOMBIE
    case Dead => q.state == ZOMBIE
    case _ => q.state == RUNNING
  }

  /** Asleep on the lock, or past the point where it stops looking. */
  predicate Waiting(q: Proc) {
    q.pc.Sleep3? || q.pc.Sleep4? || (q.pc.Asleep? && q.state == SLEEPING)
  }

  /** The process holding lk is going to look at p. */
  ghost predicate WillLook(s: State, p: int) {
    && 0 <= s.lk < |s.cpus| && 0 <= s.cpus[s.lk].run < |s.procs|
    && var pc := s.procs[s.cpus[s.lk].run].pc;
       (pc.Scan? && pc.i <= p) || (pc.Look? && pc.i <= p)
  }

  ghost predicate PInv(s: State, p: int)
    requires 0 <= p < |s.procs| == |s.plock|
  {
    var q := s.procs[p];
    && PcOk(q.pc, |s.procs|) && StateOk(q)
    && (SwitchedOut(q.pc) ==> q.cpu == -1)
    && (!SwitchedOut(q.pc) ==> 0 <= q.cpu < |s.cpus| && s.cpus[q.cpu].run == p)
    && (HoldsOwn(q.pc) ==> s.plock[p] == q.cpu)
    && (HoldsLk(q.pc) ==> s.lk == q.cpu)
    && (0 <= Held(q.pc) < |s.plock| ==> s.plock[Held(q.pc)] == q.cpu)
    && (q.pc.Touch? && q.pc.own ==> q.pc.i != p)
    && (HasLock(q.pc) ==> s.locked && s.owner == p)
    && (q.pc.Sleep1? || q.pc.Sleep2? ==> s.locked)
    && (Waiting(q) && !s.locked ==> WillLook(s, p))
  }

  ghost predicate CInv(s: State, c: int)
    requires 0 <= c < |s.cpus| && |s.procs| == |s.plock|
  {
    var u := s.cpus[c];
    && -1 <= u.run < |s.procs|
    && (u.run >= 0 ==> s.procs[u.run].cpu == c && u.sched == Away)
    && (u.run == -1 ==> u.sched != Away)
    && (u.run == -1 && u.sched.Have? ==> 0 <= u.sched.p < |s.procs| && s.plock[u.sched.p] == c)
    && (u.run == -1 && u.sched.Back? ==> 0 <= u.sched.p < |s.procs| && s.plock[u.sched.p] == c)
  }

  ghost predicate Inv(s: State) {
    && |s.procs| == |s.plock|
    && (forall p :: 0 <= p < |s.procs| ==> PInv(s, p))
    && (forall c :: 0 <= c < |s.cpus| ==> CInv(s, c))
    && (s.locked ==> 0 <= s.owner < |s.procs| && HasLock(s.procs[s.owner].pc))
    && LkHeld(s)
  }

  /** lk is held by the CPU of a process that uses it. */
  ghost predicate LkHeld(s: State) {
    s.lk != -1 ==> 0 <= s.lk < |s.cpus| && 0 <= s.cpus[s.lk].run < |s.procs| && HoldsLk(s.procs[s.cpus[s.lk].run].pc)
  }

  /** What a process needs of the rest of the state to stay as it is. */
  ghost predicate Undisturbed(s: State, s': State, p: int)
    requires 0 <= p < |s.procs| == |s.plock| && |s'.procs| == |s'.plock| == |s.procs|
  {
    var q := s.procs[p];
    && s'.procs[p] == q && |s'.cpus| == |s.cpus|
    && (0 <= q.cpu < |s.cpus| && !SwitchedOut(q.pc) ==> s'.cpus[q.cpu].run == s.cpus[q.cpu].run)
    && (HoldsOwn(q.pc) ==> s'.plock[p] == s.plock[p])
    && (HoldsLk(q.pc) ==> s'.lk == s.lk)
    && (0 <= Held(q.pc) < |s.plock| ==> s'.plock[Held(q.pc)] == s.plock[Held(q.pc)])
    && (HasLock(q.pc) || q.pc.Sleep1? || q.pc.Sleep2? ==> s'.locked == s.locked && s'.owner == s.owner)
    && (Waiting(q) && !s'.locked ==> WillLook(s', p))
  }

  lemma StillInv(s: State, s': State, p: int)
    requires 0 <= p < |s.procs| == |s.plock| && |s'.procs| == |s'.plock| == |s.procs| && PInv(s, p)
             && Undisturbed(s, s', p)
    ensures PInv(s', p)
  {
  }

  /** p on CPU c excludes every other process from that CPU. */
  lemma Alone(s: State, p: int, q: int)
    requires Inv(s) && 0 <= p < |s.procs| && 0 <= q < |s.procs| && p != q && !SwitchedOut(s.procs[p].pc)
    ensures 0 <= s.procs[p].cpu < |s.cpus| && s.procs[q].cpu != s.procs[p].cpu
    ensures HoldsLk(s.procs[p].pc) ==> !HoldsLk(s.procs[q].pc)
    ensures HoldsOwn(s.procs[p].pc) ==> Held(s.procs[q].pc) != p
  {
    assert PInv(s, p) && PInv(s, q);
  }

  lemma KeepsAll(s: State, s': State, p: int)
    requires Inv(s) && |s'.procs| == |s'.plock| == |s.procs| && |s'.cpus| == |s.cpus|
    requires forall q :: 0 <= q < |s.procs| && q != p ==> Undisturbed(s, s', q)
    requires 0 <= p < |s.procs| ==> PInv(s', p)
    ensures forall q :: 0 <= q < |s.procs| ==> PInv(s', q)
  {
    hide Undisturbed, PInv, CInv;
    forall q | 0 <= q < |s.procs| ensures PInv(s', q) {
      if q != p {
        StillInv(s, s', q);
      }
    }
  }

  lemma AcquireKeeps(s: State, c: int, p: int)
    requires Inv(s) && Enabled(s, c, Acquire(p))
    ensures Inv(Do(s, c, Acquire(p)))
  {
    var s' := Do(s, c, Acquire(p));
    assert CInv(s, c);
    forall q | 0 <= q < |s.procs| ensures Undisturbed(s, s', q) {
      assert PInv(s, q);
    }
    KeepsAll(s, s', -1);
    hide PInv, Undisturbed;
    forall d | 0 <= d < |s'.cpus| ensures CInv(s', d) {
      assert CInv(s, d);
    }
  }

  lemma SwitchKeeps(s: State, c: int)
    requires Inv(s) && Enabled(s, c, SwitchTo)
    ensures Inv(Do(s, c, SwitchTo))
  {
    var s' := Do(s, c, SwitchTo);
    var p := s.cpus[c].sched.p;
    assert CInv(s, c);
    assert PInv(s, p);
    assert SwitchedOut(s.procs[p].pc);
    forall q | 0 <= q < |s.procs| && q != p ensures Undisturbed(s, s', q) {
      assert PInv(s, q);
    }
    KeepsAll(s, s', p);
    hide PInv, Undisturbed;
    forall d | 0 <= d < |s'.cpus| ensures CInv(s', d) {
      assert CInv(s, d);
    }
  }

  /** The scheduler releases the lock of the process it looked at, or got back. */
  lemma LetGoKeeps(s: State, c: int, t: Turn)
    requires Inv(s) && Enabled(s, c, t) && (t.Skip? || t.Release?)
    ensures Inv(Do(s, c, t))
  {
    var s' := Do(s, c, t);
    assert CInv(s, c);
    forall q | 0 <= q < |s.procs| ensures Undisturbed(s, s', q) {
      assert PInv(s, q);
    }
    KeepsAll(s, s', -1);
    hide PInv, Undisturbed;
    forall d | 0 <= d < |s'.cpus| ensures CInv(s', d) {
      assert CInv(s, d);
    }
  }

  lemma InterruptKeeps(s: State, p: int, ch: int)
    requires Inv(s) && 0 <= p < |s.procs| && s.plock[p] == -1
    ensures Inv(Put(s, p, Acted(s.procs[p], Wake(ch))))
  {
    var s' := Put(s, p, Acted(s.procs[p], Wake(ch)));
    assert PInv(s, p);
    forall q | 0 <= q < |s.procs| && q != p ensures Undisturbed(s, s', q) {
      assert PInv(s, q);
    }
    KeepsAll(s, s', p);
    hide PInv, Undisturbed;
    forall d | 0 <= d < |s'.cpus| ensures CInv(s', d) {
      assert CInv(s, d);
    }
  }

  ghost predicate OnCpu(s: State, c: int, p: int) {
    Inv(s) && 0 <= c < |s.cpus| && 0 <= p < |s.procs| && s.cpus[c].run == p
  }

  lemma OnCpuParts(s: State, c: int, p: int)
    requires OnCpu(s, c, p)
    ensures |s.procs| == |s.plock| && s.procs[p].cpu == c && !SwitchedOut(s.procs[p].pc) && PInv(s, p) && CInv(s, c)
  {
    assert CInv(s, c);
    assert PInv(s, p);
  }

  /** A lock that some process holds or nobody holds is not one that a scheduler thread holds. */
  lemma CpusKeep(s: State, s': State, j: int, x: int)
    requires Inv(s) && |s'.procs| == |s.procs| && s'.cpus == s.cpus && 0 <= j < |s.plock| && s'.plock == s.plock[j := x]
    requires forall q :: 0 <= q < |s.procs| ==> s'.procs[q].cpu == s.procs[q].cpu
    requires s.plock[j] == x || s.plock[j] == -1 || (0 <= s.plock[j] < |s.cpus| && s.cpus[s.plock[j]].run >= 0)
    ensures forall c :: 0 <= c < |s.cpus| ==> CInv(s', c)
  {
    hide PInv;
    forall c | 0 <= c < |s.cpus| ensures CInv(s', c) {
      assert CInv(s, c);
    }
  }

  /** A turn of p that leaves lk and the sleep lock alone and sets process j's lock to x. */
  ghost predicate Quiet(s: State, s': State, c: int, p: int, j: int, x: int) {
    && OnCpu(s, c, p) && 0 <= j < |s.procs| == |s'.procs| && !HoldsLk(s.procs[p].pc) && !HoldsLk(s'.procs[p].pc)
    && s'.cpus == s.cpus && s'.lk == s.lk && s'.locked == s.locked && s'.owner == s.owner
    && s'.plock == s.plock[j := x]
    && (s.plock[j] == x || s.plock[j] == -1 || (j == p && HoldsOwn(s.procs[p].pc)))
    && s'.procs == s.procs[p := s'.procs[p]] && s'.procs[p].cpu == c
    && HasLock(s'.procs[p].pc) == HasLock(s.procs[p].pc)
  }

  lemma QuietOther(s: State, s': State, c: int, p: int, j: int, x: int, q: int)
    requires Quiet(s, s', c, p, j, x) && 0 <= q < |s.procs| && p != q
    ensures Undisturbed(s, s', q)
  {
    OnCpuParts(s, c, p);
    assert PInv(s, q);
    Alone(s, p, q);
    if WillLook(s, q) {
      assert PInv(s, s.cpus[s.lk].run);
    }
  }

  lemma QuietKeeps(s: State, s': State, c: int, p: int, j: int, x: int)
    requires Quiet(s, s', c, p, j, x) && PInv(s', p)
    ensures Inv(s')
  {
    OnCpuParts(s, c, p);
    hide PInv, CInv, Undisturbed, HasLock, HoldsLk, HoldsOwn;
    forall q | 0 <= q < |s.procs| && q != p ensures Undisturbed(s, s', q) {
      QuietOther(s, s', c, p, j, x, q);
    }
    KeepsAll(s, s', p);
    QuietCpus(s, s', c, p, j, x);
  }

  lemma QuietCpus(s: State, s': State, c: int, p: int, j: int, x: int)
    requires Quiet(s, s', c, p, j, x)
    ensures (forall d :: 0 <= d < |s.cpus| ==> CInv(s', d)) && LkHeld(s')
  {
    OnCpuParts(s, c, p);
    CpusKeep(s, s', j, x);
  }

  /** What such a turn may make of the process itself. */
  predicate Turned(q: Proc, q': Proc, n: int) {
    && PcOk(q'.pc, n) && StateOk(q') && !SwitchedOut(q'.pc) && q'.cpu == q.cpu && !HoldsLk(q'.pc) && Held(q'.pc) < 0
    && HasLock(q'.pc) == HasLock(q.pc) && (Waiting(q') ==> Waiting(q))
  }

  lemma QuietOwn(s: State, s': State, c: int, p: int, j: int, x: int)
    requires Quiet(s, s', c, p, j, x) && Turned(s.procs[p], s'.procs[p], |s.procs|)
    requires HoldsOwn(s'.procs[p].pc) ==> s'.plock[p] == c
    ensures PInv(s', p)
  {
    OnCpuParts(s, c, p);
    hide PcOk, StateOk, HasLock, HoldsLk, HoldsOwn;
    if WillLook(s, p) {
      HolderHolds(s);
      assert WillLook(s', p);
    }
  }

  lemma HolderHolds(s: State)
    requires Inv(s) && s.lk != -1
    ensures 0 <= s.lk < |s.cpus| && 0 <= s.cpus[s.lk].run < |s.procs| && HoldsLk(s.procs[s.cpus[s.lk].run].pc)
  {
  }

  lemma TurnKeeps(s: State, s': State, c: int, p: int, x: int)
    requires Quiet(s, s', c, p, p, x) && Turned(s.procs[p], s'.procs[p], |s.procs|)
    requires HoldsOwn(s'.procs[p].pc) ==> s'.plock[p] == c
    ensures Inv(s')
  {
    hide Quiet, Turned, HoldsOwn, PInv, Inv;
    QuietOwn(s, s', c, p, p, x);
    QuietKeeps(s, s', c, p, p, x);
  }

  /** Where a process may go on without moving a lock. */
  predicate MoveOk(pc: Pc, k: Pc, n: int) {
    && Moves(pc, k) && !SwitchedOut(pc)
    && (pc.Idle? && k != Yield1(pc) ==> k == Want || k == Die1 || Calls(pc, k, n))
    && (pc.Inside? && k != Yield1(pc) ==> k == Leave || Calls(pc, k, n))
    && (pc.Hold? ==> CallsOwn(pc.k, k, n))
    && (k == Yield1(pc) ==> Preemptible(pc))
  }

  lemma MovedFits(q: Proc, k: Pc, n: int)
    requires PcOk(q.pc, n) && StateOk(q) && MoveOk(q.pc, k, n)
    ensures Turned(q, Moved(q, k), n) && !HoldsLk(q.pc) && (HoldsOwn(Moved(q, k).pc) ==> HoldsOwn(q.pc))
  {
    if k == Yield1(q.pc) {
      YieldFits(q, n);
    } else if q.pc.Nap4? || q.pc.Hold? {
      HoldFits(q, k, n);
    } else {
      CallFits(q, k, n);
    }
    hide PcOk, StateOk, Turned, Moved, HasLock;
  }

  lemma YieldFits(q: Proc, n: int)
    requires PcOk(q.pc, n) && StateOk(q) && Preemptible(q.pc)
    ensures Turned(q, Moved(q, Yield1(q.pc)), n) && !HoldsOwn(Yield1(q.pc))
  {
  }

  lemma HoldFits(q: Proc, k: Pc, n: int)
    requires PcOk(q.pc, n) && StateOk(q) && MoveOk(q.pc, k, n) && k != Yield1(q.pc) && (q.pc.Nap4? || q.pc.Hold?)
    ensures Turned(q, Moved(q, k), n)
  {
  }

  lemma CallFits(q: Proc, k: Pc, n: int)
    requires PcOk(q.pc, n) && StateOk(q) && MoveOk(q.pc, k, n) && k != Yield1(q.pc) && Open(q.pc)
    ensures Turned(q, Moved(q, k), n) && !HoldsOwn(k)
  {
  }

  lemma ChangedFits(q: Proc, n: int)
    requires PcOk(q.pc, n) && StateOk(q) && Changes(q.pc)
    ensures Turned(q, Changed(q), n) && !HoldsLk(q.pc) && HoldsOwn(q.pc)
  {
  }

  lemma FreedFits(q: Proc, k: Pc, n: int)
    requires PcOk(q.pc, n) && StateOk(q) && Frees(q.pc, k)
    ensures Turned(q, Freed(q), n) && !HoldsLk(q.pc) && HoldsOwn(q.pc) && !HoldsOwn(Freed(q).pc)
  {
  }

  lemma TakenFits(q: Proc, n: int)
    requires PcOk(q.pc, n) && StateOk(q) && Takes(q.pc)
    ensures Turned(q, Taken(q), n) && !HoldsLk(q.pc)
  {
  }

  lemma MayMove(s: State, p: int, k: Pc)
    requires 0 <= p < |s.procs| == |s.plock| && MayGo(s, p, k) && Moves(s.procs[p].pc, k) && !SwitchedOut(s.procs[p].pc)
    ensures MoveOk(s.procs[p].pc, k, |s.procs|)
  {
  }

  lemma MoveKeeps(s: State, c: int, p: int, k: Pc)
    requires OnCpu(s, c, p) && MayGo(s, p, k) && Moves(s.procs[p].pc, k)
    ensures Inv(Put(s, p, Moved(s.procs[p], k)))
  {
    hide Inv, Moves, Moved, MayGo, PcOk, StateOk, HoldsLk, HoldsOwn, HasLock;
    OnCpuParts(s, c, p);
    var q, s' := s.procs[p], Put(s, p, Moved(s.procs[p], k));
    MayMove(s, p, k);
    MovedFits(q, k, |s.procs|);
    assert s.plock[p := s.plock[p]] == s.plock;
    TurnKeeps(s, s', c, p, s.plock[p]);
  }

  lemma ChangeKeeps(s: State, c: int, p: int)
    requires OnCpu(s, c, p) && Changes(s.procs[p].pc)
    ensures Inv(Put(s, p, Changed(s.procs[p])))
  {
    OnCpuParts(s, c, p);
    var q, s' := s.procs[p], Put(s, p, Changed(s.procs[p]));
    ChangedFits(q, |s.procs|);
    hide Inv, Changes, Changed, PcOk, StateOk, HoldsLk, HoldsOwn, HasLock;
    assert s.plock[p := s.plock[p]] == s.plock;
    TurnKeeps(s, s', c, p, s.plock[p]);
  }

  lemma FreeOwnKeeps(s: State, c: int, p: int, k: Pc)
    requires OnCpu(s, c, p) && Frees(s.procs[p].pc, k)
    ensures Inv(FreeOwn(s, p, Freed(s.procs[p])))
  {
    OnCpuParts(s, c, p);
    var q, s' := s.procs[p], FreeOwn(s, p, Freed(s.procs[p]));
    FreedFits(q, k, |s.procs|);
    hide Inv, Frees, Freed, PcOk, StateOk, HoldsLk, HoldsOwn, HasLock;
    TurnKeeps(s, s', c, p, -1);
  }

  lemma TakeOwnKeeps(s: State, c: int, p: int)
    requires OnCpu(s, c, p) && Takes(s.procs[p].pc) && s.plock[p] == -1
    ensures Inv(TakeOwn(s, c, p, Taken(s.procs[p])))
  {
    OnCpuParts(s, c, p);
    var q, s' := s.procs[p], TakeOwn(s, c, p, Taken(s.procs[p]));
    TakenFits(q, |s.procs|);
    hide Inv, Takes, Taken, PcOk, StateOk, HoldsLk, HoldsOwn, HasLock;
    TurnKeeps(s, s', c, p, c);
  }

  lemma VisitKeeps(s: State, c: int, p: int)
    requires OnCpu(s, c, p) && s.procs[p].pc.Visit?
             && (0 <= s.procs[p].pc.i < |s.procs| ==> s.plock[s.procs[p].pc.i] == -1)
    ensures Inv(Locking(s, c, p))
  {
    OnCpuParts(s, c, p);
    var s', i := Locking(s, c, p), s.procs[p].pc.i;
    assert PInv(s', p) && Quiet(s, s', c, p, i, c) by {
      hide Inv;
    }
    hide Inv, PInv, Locking, Quiet;
    QuietKeeps(s, s', c, p, i, c);
  }

  /** A turn of p, which holds lk, that passes it on unlooked at or not at all. */
  lemma HolderTurn(s: State, s': State, p: int, q: int)
    requires Inv(s) && 0 <= p < |s.procs| && 0 <= q < |s.procs| && p != q && HoldsLk(s.procs[p].pc)
    requires |s'.procs| == |s.procs| == |s'.plock| && s'.procs[q] == s.procs[q] && s'.cpus == s.cpus
    requires s'.plock[q] == s.plock[q]
    requires var j := Held(s.procs[q].pc); 0 <= j < |s.plock| ==> s'.plock[j] == s.plock[j]
    requires HasLock(s.procs[q].pc) ==> s'.locked == s.locked && s'.owner == s.owner
    requires Waiting(s.procs[q]) && !s'.locked ==> WillLook(s', q)
    ensures Undisturbed(s, s', q)
  {
    assert PInv(s, q) && PInv(s, p);
    Alone(s, p, q);
  }

  lemma TakeLkKeeps(s: State, c: int, p: int)
    requires OnCpu(s, c, p) && s.lk == -1
    requires var pc := s.procs[p].pc; pc.Want? || pc.Leave?
    ensures Inv(Locking(s, c, p))
  {
    var s' := Locking(s, c, p);
    OnCpuParts(s, c, p);
    assert s'.cpus == s.cpus && s'.plock == s.plock[p := s.plock[p]] && |s'.procs| == |s.procs| && LkHeld(s');
    assert s'.locked ==> 0 <= s'.owner < |s'.procs| && HasLock(s'.procs[s'.owner].pc);
    hide PInv, CInv, Undisturbed, HasLock, HoldsLk, HoldsOwn, LkHeld;
    TakeLkOwn(s, c, p);
    forall q | 0 <= q < |s.procs| && q != p ensures Undisturbed(s, s', q) {
      TakeLkOther(s, c, p, q);
    }
    KeepsAll(s, s', p);
    CpusKeep(s, s', p, s.plock[p]);
  }

  lemma TakeLkOwn(s: State, c: int, p: int)
    requires OnCpu(s, c, p) && s.lk == -1
    requires var pc := s.procs[p].pc; pc.Want? || pc.Leave?
    ensures PInv(Locking(s, c, p), p)
  {
    OnCpuParts(s, c, p);
    hide Inv;
  }

  lemma TakeLkOther(s: State, c: int, p: int, q: int)
    requires OnCpu(s, c, p) && s.lk == -1 && 0 <= q < |s.procs| && q != p
    requires var pc := s.procs[p].pc; pc.Want? || pc.Leave?
    ensures Undisturbed(s, Locking(s, c, p), q)
  {
    OnCpuParts(s, c, p);
    assert PInv(s, q);
    hide Inv, PcOk, StateOk;
  }

  /** A turn of p, which holds lk, that moves no lock but process p's and lk. */
  predicate Holding(pc: Pc, n: int) {
    pc.Test? || pc.Sleep1? || pc.Sleep2? || pc.Got? || pc.Clear? || pc == Scan(n)
  }

  ghost predicate Ready(s: State, c: int, p: int) {
    OnCpu(s, c, p) && Holding(s.procs[p].pc, |s.procs|) && (s.procs[p].pc.Sleep1? ==> s.plock[p] == -1)
  }

  lemma HoldingOwn(s: State, c: int, p: int)
    requires Ready(s, c, p)
    ensures PInv(Locking(s, c, p), p)
  {
    OnCpuParts(s, c, p);
    hide Inv;
  }

  lemma HoldingOther(s: State, c: int, p: int, q: int)
    requires Ready(s, c, p) && 0 <= q < |s.procs| && q != p
    ensures Undisturbed(s, Locking(s, c, p), q)
  {
    OnCpuParts(s, c, p);
    assert PInv(s, q);
    Alone(s, p, q);
    HolderTurn(s, Locking(s, c, p), p, q);
  }

  lemma HoldingFrame(s: State, c: int, p: int)
    requires Ready(s, c, p)
    ensures var s' := Locking(s, c, p);
            && |s'.procs| == |s.procs| && s'.cpus == s.cpus && s'.procs[p].cpu == c == s.procs[p].cpu
            && s.cpus[c].run == p
            && s'.plock == s.plock[p := s'.plock[p]] && (s.plock[p] == -1 || s'.plock[p] == s.plock[p])
            && (forall q :: 0 <= q < |s.procs| && q != p ==> s'.procs[q] == s.procs[q]) && LkHeld(s')
            && (s'.locked ==> 0 <= s'.owner < |s'.procs| && HasLock(s'.procs[s'.owner].pc))
  {
    OnCpuParts(s, c, p);
    hide CInv, PcOk, StateOk, Waiting, SwitchedOut, HoldsOwn;
  }

  lemma HoldingKeeps(s: State, c: int, p: int)
    requires Ready(s, c, p)
    ensures Inv(Locking(s, c, p))
  {
    hide Locking, PInv, CInv, Undisturbed, HasLock, HoldsLk, HoldsOwn, LkHeld;
    var s' := Locking(s, c, p);
    HoldingFrame(s, c, p);
    HoldingOwn(s, c, p);
    forall q | 0 <= q < |s.procs| && q != p ensures Undisturbed(s, s', q) {
      HoldingOther(s, c, p, q);
    }
    KeepsAll(s, s', p);
    CpusKeep(s, s', p, s'.plock[p]);
  }

  lemma SwitchOutKeeps(s: State, c: int, p: int)
    requires OnCpu(s, c, p) && Switches(s.procs[p].pc)
    ensures Inv(SwitchOut(s, c, p, Out(s.procs[p].pc)))
  {
    hide PInv, CInv, Undisturbed, HasLock, HoldsLk, HoldsOwn, LkHeld;
    var s' := SwitchOut(s, c, p, Out(s.procs[p].pc));
    SwitchOutFrame(s, c, p);
    SwitchOutOwn(s, c, p);
    forall q | 0 <= q < |s.procs| && q != p ensures Undisturbed(s, s', q) {
      SwitchOutOther(s, c, p, q);
    }
    KeepsAll(s, s', p);
    forall d | 0 <= d < |s'.cpus| ensures CInv(s', d) {
      SwitchOutCpu(s, c, p, d);
    }
  }

  lemma OutFits(q: Proc, n: int)
    requires PcOk(q.pc, n) && StateOk(q) && Switches(q.pc)
    ensures var q' := q.(pc := Out(q.pc), cpu := -1);
            && PcOk(q'.pc, n) && StateOk(q') && SwitchedOut(q'.pc) && !HoldsLk(q'.pc) && !HoldsOwn(q'.pc)
            && Held(q'.pc) < 0
            && HasLock(q'.pc) == HasLock(q.pc) && (Waiting(q') ==> Waiting(q)) && HoldsOwn(q.pc) && !HoldsLk(q.pc)
  {
  }

  lemma SwitchOutFrame(s: State, c: int, p: int)
    requires OnCpu(s, c, p) && Switches(s.procs[p].pc)
    ensures var s' := SwitchOut(s, c, p, Out(s.procs[p].pc));
            LkHeld(s') && (s'.locked ==> 0 <= s'.owner < |s'.procs| && HasLock(s'.procs[s'.owner].pc))
  {
    OnCpuParts(s, c, p);
    OutFits(s.procs[p], |s.procs|);
    hide Out, Switches, HasLock, HoldsLk, HoldsOwn;
  }

  lemma SwitchOutOwn(s: State, c: int, p: int)
    requires OnCpu(s, c, p) && Switches(s.procs[p].pc)
    ensures PInv(SwitchOut(s, c, p, Out(s.procs[p].pc)), p)
  {
    OnCpuParts(s, c, p);
    OutFits(s.procs[p], |s.procs|);
    hide Out, Switches, HasLock, HoldsLk, HoldsOwn, PcOk, StateOk;
    if WillLook(s, p) {
      HolderHolds(s);
      assert WillLook(SwitchOut(s, c, p, Out(s.procs[p].pc)), p);
    }
  }

  lemma SwitchOutOther(s: State, c: int, p: int, q: int)
    requires OnCpu(s, c, p) && Switches(s.procs[p].pc) && 0 <= q < |s.procs| && q != p
    ensures Undisturbed(s, SwitchOut(s, c, p, Out(s.procs[p].pc)), q)
  {
    OnCpuParts(s, c, p);
    assert PInv(s, q);
    Alone(s, p, q);
    if WillLook(s, q) {
      HolderHolds(s);
    }
    hide Inv;
  }

  lemma SwitchOutCpu(s: State, c: int, p: int, d: int)
    requires OnCpu(s, c, p) && Switches(s.procs[p].pc) && 0 <= d < |s.cpus|
    ensures CInv(SwitchOut(s, c, p, Out(s.procs[p].pc)), d)
  {
    OnCpuParts(s, c, p);
    OutFits(s.procs[p], |s.procs|);
    assert CInv(s, d);
    hide Inv, Out, Switches, HasLock, HoldsLk, HoldsOwn, PcOk, StateOk;
  }

  lemma ScanKeeps(s: State, c: int, p: int)
    requires OnCpu(s, c, p) && s.procs[p].pc.Scan? && 0 <= s.procs[p].pc.i < |s.procs| && s.plock[s.procs[p].pc.i] == -1
    ensures Inv(Locking(s, c, p))
  {
    var s' := Locking(s, c, p);
    var i := s.procs[p].pc.i;
    OnCpuParts(s, c, p);
    assert PInv(s', p);
    forall q | 0 <= q < |s.procs| && q != p ensures Undisturbed(s, s', q) {
      ScanOther(s, c, p, q);
    }
    hide PInv, CInv, Undisturbed;
    KeepsAll(s, s', p);
    CpusKeep(s, s', i, c);
  }

  lemma ScanOther(s: State, c: int, p: int, q: int)
    requires OnCpu(s, c, p) && s.procs[p].pc.Scan? && 0 <= s.procs[p].pc.i < |s.procs| && s.plock[s.procs[p].pc.i] == -1
    requires 0 <= q < |s.procs| && q != p
    ensures Undisturbed(s, Locking(s, c, p), q)
  {
    OnCpuParts(s, c, p);
    assert PInv(s, q);
    Alone(s, p, q);
    hide Inv;
  }

  // ----- acting on another process

  ghost predicate Acting(s: State, c: int, p: int, i: int) {
    OnCpu(s, c, p) && Acts(s.procs[p].pc) && s.procs[p].pc.i == i && 0 <= i < |s.procs|
  }

  ghost function AfterAct(s: State, c: int, p: int, i: int): State
    requires Acting(s, c, p, i)
  {
    ActOn(s, p, i, ActOf(s.procs[p].pc), After(s.procs[p].pc))
  }

  /** The process acted on: it holds no lock, and changes its position only while it is switched out and has no
      claim on the sleep lock. */
  ghost predicate Meek(q: Proc, q': Proc) {
    && q'.cpu == q.cpu && !HoldsOwn(q.pc) && !HoldsOwn(q'.pc)
    && (q'.pc == q.pc || (SwitchedOut(q.pc) && SwitchedOut(q'.pc) && !HasLock(q.pc) && !HasLock(q'.pc)))
    && (Waiting(q') ==> Waiting(q) && q' == q)
  }

  lemma ActedFits(q: Proc, a: Act, n: int)
    requires PcOk(q.pc, n) && StateOk(q) && !HoldsOwn(q.pc) && (SwitchedOut(q.pc) ==> q.cpu == -1)
    ensures PcOk(Acted(q, a).pc, n) && StateOk(Acted(q, a)) && Meek(q, Acted(q, a))
    ensures !SwitchedOut(q.pc) ==> Acted(q, a) == q
  {
  }

  lemma Unlocked(s: State, c: int, p: int, i: int)
    requires Acting(s, c, p, i)
    ensures s.plock[i] == c && s.procs[p].cpu == c && PInv(s, i) && PInv(s, p)
    ensures i != p ==> !HoldsOwn(s.procs[i].pc) && s.procs[i].cpu != c
    ensures i == p ==> Acted(s.procs[i], ActOf(s.procs[p].pc)) == s.procs[i]
  {
    OnCpuParts(s, c, p);
    assert PInv(s, i);
    if i != p {
      Alone(s, p, i);
    }
  }

  lemma AfterFits(q: Proc, n: int)
    requires PcOk(q.pc, n) && StateOk(q) && Acts(q.pc)
    ensures var q' := q.(pc := After(q.pc));
            && PcOk(q'.pc, n) && StateOk(q') && !SwitchedOut(q'.pc) && HoldsLk(q'.pc) == HoldsLk(q.pc)
            && Held(q'.pc) < 0
            && HasLock(q'.pc) == HasLock(q.pc) && !Waiting(q') && (HoldsOwn(q'.pc) ==> q.pc.Touch? && q.pc.own)
            && !q'.pc.Sleep1? && !q'.pc.Sleep2?
  {
  }

  /** What acting changes. */
  ghost predicate ActMove(s: State, s': State, c: int, p: int, i: int)
    requires Acting(s, c, p, i)
  {
    && |s'.procs| == |s.procs| && s'.plock == s.plock[i := -1] && s.plock[i] == c && s.cpus[c].run == p
    && s'.cpus == s.cpus && s'.lk == s.lk && s'.locked == s.locked && s'.owner == s.owner
    && s'.procs[p] == s.procs[p].(pc := After(s.procs[p].pc))
    && (i != p ==> s'.procs[i] == Acted(s.procs[i], ActOf(s.procs[p].pc)))
    && forall q :: 0 <= q < |s.procs| && q != p && q != i ==> s'.procs[q] == s.procs[q]
  }

  lemma ActMoves(s: State, c: int, p: int, i: int)
    requires Acting(s, c, p, i)
    ensures ActMove(s, AfterAct(s, c, p, i), c, p, i)
  {
    Unlocked(s, c, p, i);
    hide Inv, Acted, After, ActOf, Acts;
  }

  lemma ActOwn(s: State, s': State, c: int, p: int, i: int)
    requires Acting(s, c, p, i) && ActMove(s, s', c, p, i)
    ensures PInv(s', p)
  {
    Unlocked(s, c, p, i);
    AfterFits(s.procs[p], |s.procs|);
    hide Inv, Acted, After, ActOf, PcOk, StateOk, SwitchedOut, HoldsLk, HasLock, Waiting;
  }

  /** wakeup's scan still comes to q afterwards. */
  lemma ActWill(s: State, s': State, c: int, p: int, i: int, q: int)
    requires Acting(s, c, p, i) && ActMove(s, s', c, p, i) && WillLook(s, q) && (q != i || s.procs[p].pc.Touch?)
    ensures WillLook(s', q)
  {
    HolderHolds(s);
    var h := s.cpus[s.lk].run;
    assert PInv(s, h) && CInv(s, s.lk);
    Unlocked(s, c, p, i);
    if h == i && i != p {
      ActedFits(s.procs[i], ActOf(s.procs[p].pc), |s.procs|);
    }
    hide Inv, Acted, PcOk, StateOk, HoldsOwn, HasLock, Waiting;
  }

  lemma ActedOn(s: State, s': State, c: int, p: int, i: int)
    requires Acting(s, c, p, i) && ActMove(s, s', c, p, i) && i != p
    ensures PInv(s', i)
  {
    Unlocked(s, c, p, i);
    ActedFits(s.procs[i], ActOf(s.procs[p].pc), |s.procs|);
    if Waiting(s'.procs[i]) && !s.locked {
      WakesWaiting(s, s', c, p, i);
      ActWill(s, s', c, p, i, i);
    }
    ActedElsewhere(s, c, p, i);
    hide Inv, Acted, ActOf, Acts, After, PcOk, StateOk, HoldsOwn, HasLock, Waiting;
  }

  /** After wakeup's look process i is not waiting. */
  lemma WakesWaiting(s: State, s': State, c: int, p: int, i: int)
    requires Acting(s, c, p, i) && ActMove(s, s', c, p, i) && i != p && Waiting(s'.procs[i])
    ensures s.procs[p].pc.Touch?
  {
    Unlocked(s, c, p, i);
    hide Inv;
  }

  lemma ActedElsewhere(s: State, c: int, p: int, i: int)
    requires Acting(s, c, p, i) && i != p
    ensures 0 <= Held(s.procs[i].pc) < |s.procs| ==> Held(s.procs[i].pc) != i
  {
    Unlocked(s, c, p, i);
    hide Inv;
  }

  lemma ActOther(s: State, s': State, c: int, p: int, i: int, q: int)
    requires Acting(s, c, p, i) && ActMove(s, s', c, p, i) && 0 <= q < |s.procs| && q != p && q != i
    ensures Undisturbed(s, s', q)
  {
    Unlocked(s, c, p, i);
    assert PInv(s, q);
    OnCpuParts(s, c, p);
    Alone(s, p, q);
    if WillLook(s, q) {
      ActWill(s, s', c, p, i, q);
    }
    hide Inv, Acted, ActOf, After, PcOk, StateOk;
  }

  lemma ActOwner(s: State, s': State, c: int, p: int, i: int)
    requires Acting(s, c, p, i) && ActMove(s, s', c, p, i)
    ensures s'.locked ==> 0 <= s'.owner < |s'.procs| && HasLock(s'.procs[s'.owner].pc)
    ensures forall q :: 0 <= q < |s.procs| ==> s'.procs[q].cpu == s.procs[q].cpu
    ensures LkHeld(s')
  {
    Unlocked(s, c, p, i);
    AfterFits(s.procs[p], |s.procs|);
    if i != p {
      ActedFits(s.procs[i], ActOf(s.procs[p].pc), |s.procs|);
    }
    if s.lk != -1 {
      HolderHolds(s);
      assert PInv(s, s.cpus[s.lk].run) && CInv(s, s.lk);
    }
    hide Acted, ActOf, After, Acts, PcOk, StateOk, HoldsOwn, HasLock, Waiting, PInv, CInv;
  }

  /** p holds the lock of process i, acts on it and releases the lock. */
  lemma ActKeeps(s: State, c: int, p: int, i: int)
    requires Acting(s, c, p, i)
    ensures Inv(AfterAct(s, c, p, i))
  {
    hide AfterAct, PInv, CInv, Undisturbed, HasLock, HoldsLk, HoldsOwn, LkHeld, Acted, ActOf, After, Acts;
    var s' := AfterAct(s, c, p, i);
    ActMoves(s, c, p, i);
    forall q | 0 <= q < |s.procs| ensures PInv(s', q) {
      if q == p {
        ActOwn(s, s', c, p, i);
      } else if q == i {
        ActedOn(s, s', c, p, i);
      } else {
        ActOther(s, s', c, p, i, q);
        StillInv(s, s', q);
      }
    }
    ActOwner(s, s', c, p, i);
    CpusKeep(s, s', i, -1);
  }

  lemma GoKeeps(s: State, c: int, k: Pc)
    requires Inv(s) && Enabled(s, c, Go(k))
    ensures Inv(Do(s, c, Go(k)))
  {
    var p := s.cpus[c].run;
    OnCpuParts(s, c, p);
    var pc := s.procs[p].pc;
    hide PInv, CInv, Inv, StateOk, HasLock, Locking, Moves, Moved, Frees, Freed, Takes, Taken, Changes, Changed;
    hide Switches, Out, Acts;
    if Moves(pc, k) {
      MoveKeeps(s, c, p, k);
    } else if Changes(pc) {
      ChangeKeeps(s, c, p);
    } else if Frees(pc, k) {
      FreeOwnKeeps(s, c, p, k);
    } else if Takes(pc) {
      TakesFree(s, p, k);
      TakeOwnKeeps(s, c, p);
    } else if Switches(pc) {
      SwitchOutKeeps(s, c, p);
    } else if Acts(pc) {
      ActsInside(s, p, k);
      ActKeeps(s, c, p, pc.i);
    } else {
      LockingKeeps(s, c, p, k);
    }
  }

  lemma TakesFree(s: State, p: int, k: Pc)
    requires 0 <= p < |s.procs| == |s.plock| && MayGo(s, p, k) && Takes(s.procs[p].pc) && !Moves(s.procs[p].pc, k)
    ensures s.plock[p] == -1
  {
  }

  lemma ActsInside(s: State, p: int, k: Pc)
    requires 0 <= p < |s.procs| == |s.plock| && MayGo(s, p, k) && Acts(s.procs[p].pc) && !Moves(s.procs[p].pc, k)
    ensures 0 <= s.procs[p].pc.i < |s.procs|
  {
  }

  lemma LockingKeeps(s: State, c: int, p: int, k: Pc)
    requires OnCpu(s, c, p) && MayGo(s, p, k)
    requires var pc := s.procs[p].pc;
             && !Moves(pc, k) && !Frees(pc, k) && !Takes(pc) && !Changes(pc) && !Switches(pc) && !Acts(pc)
    ensures Inv(Locking(s, c, p))
  {
    OnCpuParts(s, c, p);
    hide CInv, Inv, Locking, StateOk, HasLock;
    match s.procs[p].pc {
      case Want => TakeLkKeeps(s, c, p);
      case Leave => TakeLkKeeps(s, c, p);
      case Visit(_, _, _, _) => VisitKeeps(s, c, p);
      case Scan(i) =>
        if i < |s.procs| {
          ScanKeeps(s, c, p);
        } else {
          HoldingKeeps(s, c, p);
        }
      case _ => HoldingKeeps(s, c, p);
    }
  }

  /** Every step keeps the invariant. */
  lemma StepKeeps(s: State, s': State)
    requires Inv(s) && Step(s, s')
    ensures Inv(s')
  {
    if Interrupted(s, s') {
      var p, ch :| 0 <= p < |s.procs| == |s.plock| && s.plock[p] == -1 && s' == Put(s, p, Acted(s.procs[p], Wake(ch)));
      InterruptKeeps(s, p, ch);
    } else {
      var c, t :| Enabled(s, c, t) && s' == Do(s, c, t);
      hide Inv, MayGo, Gone;
      match t {
        case Acquire(p) => AcquireKeeps(s, c, p);
        case Skip => LetGoKeeps(s, c, t);
        case Release => LetGoKeeps(s, c, t);
        case SwitchTo => SwitchKeeps(s, c);
        case Go(k) => GoKeeps(s, c, k);
      }
    }
  }

  lemma InitInv(s: State)
    requires Init(s)
    ensures Inv(s)
  {
  }

  lemma {:induction false} RunInv(ss: seq<State>)
    requires Run(ss)
    ensures Inv(ss[|ss| - 1])
  {
    hide Inv, Step, Init;
    if |ss| == 1 {
      InitInv(ss[0]);
    } else {
      var n := |ss| - 1;
      forall i, j | 0 <= i && j == i + 1 && j < n ensures Step(ss[..n][i], ss[..n][j]) {
        assert Step(ss[i], ss[j]);
      }
      RunInv(ss[..n]);
      assert ss[..n][n - 1] == ss[n - 1];
      assert Step(ss[n - 1], ss[n]);
      StepKeeps(ss[n - 1], ss[n]);
    }
  }

  // ----- what it gives

  /** In every run no kernel thread is executed by two CPUs at once, and a process that a scheduler may pick
      (runnable), that wait may free (zombie) or whose slot fork may use again (unused) is executed by no CPU but
      one that still holds its lock on the way out.  So nobody runs on a kernel stack that is being reused. */
  lemma NoDoubleRun(ss: seq<State>, c: int, d: int, p: int)
    requires Run(ss)
    ensures var s := ss[|ss| - 1];
            && (0 <= c < |s.cpus| && 0 <= d < |s.cpus| && s.cpus[c].run == s.cpus[d].run >= 0 ==> c == d)
            && (0 <= p < |s.procs| == |s.plock| && 0 <= c < |s.cpus| && 0 <= d < |s.cpus| && s.cpus[d].run == p
                && (s.procs[p].state == RUNNABLE || s.procs[p].state == ZOMBIE || s.procs[p].state == UNUSED) ==>
                  s.procs[p].state != UNUSED && s.plock[p] == d && s.cpus[c].sched != Have(p))
  {
    RunInv(ss);
    var s := ss[|ss| - 1];
    if 0 <= c < |s.cpus| {
      assert CInv(s, c);
    }
    if 0 <= d < |s.cpus| {
      assert CInv(s, d);
      if 0 <= p < |s.procs| && s.cpus[d].run == p {
        assert PInv(s, p);
      }
    }
  }

  lemma WhoFrees(s: State, s': State, c: int, p: int, k: Pc, i: int)
    requires 0 <= p < |s.procs| == |s.plock| == |s'.procs| && 0 <= c < |s.cpus| && MayGo(s, p, k)
             && s' == Gone(s, c, p, k)
    requires 0 <= i < |s.procs| && s'.procs[i].state != s.procs[i].state
    requires OnCpu(s, c, p) && (s.procs[i].state == ZOMBIE || s.procs[i].state == UNUSED)
    ensures s.procs[i].cpu == -1
  {
    hide Inv, Gone, MayGo, PInv;
    if i == p {
      SelfState(s, s', c, p, k);
    } else {
      OtherState(s, c, p, k, i);
      Unlocked(s, c, p, i);
      AtRest(s, i);
    }
  }

  lemma AtRest(s: State, i: int)
    requires 0 <= i < |s.procs| == |s.plock| && PInv(s, i) && !HoldsOwn(s.procs[i].pc)
    requires s.procs[i].state == ZOMBIE || s.procs[i].state == UNUSED
    ensures s.procs[i].cpu == -1
  {
  }

  lemma OtherState(s: State, c: int, p: int, k: Pc, i: int)
    requires 0 <= p < |s.procs| == |s.plock| && 0 <= c < |s.cpus| && MayGo(s, p, k) && 0 <= i < |s.procs| && i != p
    ensures Gone(s, c, p, k).procs[i] == s.procs[i] || (Acts(s.procs[p].pc) && s.procs[p].pc.i == i)
  {
    hide Moved, Changed, Freed, Taken, Out, Acted, After, ActOf, Moves, Changes, Frees, Takes, Switches;
  }

  lemma SelfState(s: State, s': State, c: int, p: int, k: Pc)
    requires 0 <= p < |s.procs| == |s.plock| == |s'.procs| && 0 <= c < |s.cpus| && MayGo(s, p, k)
             && s' == Gone(s, c, p, k)
    requires OnCpu(s, c, p) && (s.procs[p].state == ZOMBIE || s.procs[p].state == UNUSED)
    ensures s'.procs[p].state == s.procs[p].state
  {
    hide Inv, Gone, MayGo;
    OnCpuParts(s, c, p);
    hide PInv, CInv;
    ZombieSwitches(s, p);
    DeadState(s, s', c, p, k);
  }

  lemma ZombieSwitches(s: State, p: int)
    requires 0 <= p < |s.procs| == |s.plock| && PInv(s, p) && !SwitchedOut(s.procs[p].pc)
    requires s.procs[p].state == ZOMBIE || s.procs[p].state == UNUSED
    ensures s.procs[p].pc.Die3?
  {
  }

  lemma DeadState(s: State, s': State, c: int, p: int, k: Pc)
    requires 0 <= p < |s.procs| == |s.plock| == |s'.procs| && 0 <= c < |s.cpus| && MayGo(s, p, k)
             && s' == Gone(s, c, p, k)
    requires s.procs[p].pc.Die3?
    ensures s'.procs[p].state == s.procs[p].state
  {
  }

  /** In every run, whoever frees a zombie or fills a slot finds its kernel thread switched out. */
  lemma {:induction false} ReusedStackIsFree(ss: seq<State>, s: State, s': State, c: int, k: Pc, i: int)
    requires |ss| > 0 && s == ss[|ss| - 1] && Enabled(s, c, Go(k)) && s' == Do(s, c, Go(k))
    requires 0 <= i < |s.procs| == |s'.procs| && s'.procs[i].state != s.procs[i].state
    requires s.procs[i].state == ZOMBIE || s.procs[i].state == UNUSED
    requires Run(ss)
    ensures s.procs[i].cpu == -1 && forall d :: 0 <= d < |s.cpus| ==> s.cpus[d].run != i
  {
    hide Run, Gone, MayGo;
    RunInv(ss);
    var p := s.cpus[c].run;
    OnCpuParts(s, c, p);
    assert PInv(s, i);
    WhoFrees(s, s', c, p, k, i);
    forall d | 0 <= d < |s.cpus| ensures s.cpus[d].run != i {
      assert CInv(s, d);
    }
  }

  /** In every run at most one process holds the sleep lock, running or asleep for something else, and one does
      exactly when locked is set. */
  lemma OneHolder(ss: seq<State>, p: int, q: int)
    requires Run(ss)
    ensures var s := ss[|ss| - 1];
            && (0 <= p < |s.procs| && 0 <= q < |s.procs| && HasLock(s.procs[p].pc) && HasLock(s.procs[q].pc) ==> p == q)
            && (s.locked <==> exists o :: 0 <= o < |s.procs| && HasLock(s.procs[o].pc))
  {
    RunInv(ss);
    var s := ss[|ss| - 1];
    if 0 <= p < |s.procs| && 0 <= q < |s.procs| {
      assert PInv(s, p) && PInv(s, q);
    }
    if o :| 0 <= o < |s.procs| && HasLock(s.procs[o].pc) {
      assert PInv(s, o);
    }
  }

  /** In every run, whenever the sleep lock's spinlock is free and the sleep lock is not taken, nobody is asleep
      on it or about to be. */
  lemma NoLostWakeup(ss: seq<State>, p: int)
    requires Run(ss)
    ensures var s := ss[|ss| - 1];
            s.lk == -1 && !s.locked && 0 <= p < |s.procs| ==>
              && !(s.procs[p].state == SLEEPING && s.procs[p].chan == LOCK)
              && !Waiting(s.procs[p]) && !s.procs[p].pc.Sleep1? && !s.procs[p].pc.Sleep2?
  {
    RunInv(ss);
    var s := ss[|ss| - 1];
    if 0 <= p < |s.procs| {
      assert PInv(s, p);
    }
  }

  predicate SwitchedIn(pc: Pc) { pc.Awake? || pc.Yield4? || pc.Nap4? || pc.First? }

  /** In every run a process about to swtch in sched has changed its state and its lock is held by its CPU, and
      the process switched to by a scheduler finds its lock held by that CPU. */
  lemma HandOver(ss: seq<State>, p: int)
    requires Run(ss)
    ensures var s := ss[|ss| - 1];
            0 <= p < |s.procs| == |s.plock| && (Switches(s.procs[p].pc) || SwitchedIn(s.procs[p].pc)) ==>
              && 0 <= s.plock[p] < |s.cpus| && s.cpus[s.plock[p]].run == p
              && (Switches(s.procs[p].pc) ==> s.procs[p].state != RUNNING && s.lk != s.plock[p])
  {
    RunInv(ss);
    var s := ss[|ss| - 1];
    if 0 <= p < |s.procs| {
      assert PInv(s, p);
    }
  }
}
