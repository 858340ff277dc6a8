/** sleep, wakeup, exit, reparent, wait, fork and kill of proc.c, one lock operation or one
    access at a time, on any number of harts. */
module SleepWait {

  datatype Status = UNUSED | USED | SLEEPING | RUNNABLE | RUNNING | ZOMBIE

  /** Where a process stands.  `Elsewhere` is user code and all other kernel code, holding
      neither wait_lock nor a process lock. */
  datatype Pc =
    | Vacant                                   // no process
    | Forked(parent: nat)                      // being made by fork
    | Elsewhere
    | WaitLock                                 // wait: before wait_lock
    | Scan(k: nat, kids: bool)                 // wait: the scan has come to entry k
    | Check(k: nat)                            // wait: holds the lock of its child k
    | SleepLock                                // sleep: before the process lock
    | SleepUnlock                              // sleep: about to give up the lock it was called with
    | SleepSet                                 // sleep: about to record the channel and the state
    | Switching                                // sched: the scheduler has yet to release p->lock
    | Off                                      // switched out
    | Resumed                                  // sleep: running again
    | ExitLock                                 // exit: before wait_lock
    | Reparent(k: nat)                         // reparent: entry k
    | ReparentWake(k: nat, j: nat)             // its wakeup(initproc): entry j
    | ReparentWaking(k: nat, j: nat)           // the same, holding the lock of j
    | WakeParent(j: nat)                       // exit: wakeup(p->parent): entry j
    | WakingParent(j: nat)
    | ZombieLock                               // exit: before the process lock
    | ZombieSet                                // exit: about to become a zombie
    | ZombieUnlock                             // exit: about to give up wait_lock
    | Dying                                    // sched: the scheduler has yet to release p->lock
    | Dead
    | ForkLock(c: nat)                         // fork: before wait_lock
    | ForkSet(c: nat)                          // fork: about to set the child's parent
    | ForkUnlock(c: nat)                       // fork: about to give up wait_lock
    | ForkRun(c: nat)                          // fork: about to make the child runnable

  const NONE: int := -1

  /** `chan` is the address slept on: entry numbers stand for the entries' addresses. */
  datatype Proc = Proc(state: Status, chan: int, parent: int, killed: bool, pc: Pc)

  datatype Machine = Machine(procs: seq<Proc>, initproc: nat, waitLock: int, locks: seq<int>)

  /** Run(i): process i takes its next step.  The others are what the rest of the system may
      do to it. */
  datatype Event =
    | Run(i: nat)
    | CallWait(i: nat) | CallExit(i: nat) | CallFork(i: nat, c: nat)
    | CopyoutFails(i: nat)
    | SleepElsewhere(i: nat, chan: int) | WakeElsewhere(i: nat)
    | Kill(i: nat)
    | SchedulerReleases(i: nat) | Dispatch(i: nat) | Yield(i: nat)

  // ----- who holds what -----

  predicate HoldsWait(pc: Pc) {
    pc.Scan? || pc.Check? || pc.SleepLock? || pc.SleepUnlock? || pc.Reparent? || pc.ReparentWake? || pc.ReparentWaking?
    || pc.WakeParent? || pc.WakingParent? || pc.ZombieLock? || pc.ZombieSet? || pc.ZombieUnlock? || pc.ForkSet?
       || pc.ForkUnlock?
  }

  /** Process `i` at `pc` holds its own lock. */
  predicate HoldsOwn(pc: Pc) {
    pc.SleepUnlock? || pc.SleepSet? || pc.Switching? || pc.Resumed? || pc.ZombieSet? || pc.ZombieUnlock? || pc.Dying?
  }

  predicate HoldsOther(pc: Pc, j: nat) { pc == Check(j) || (pc.ReparentWaking? && pc.j == j) || pc == WakingParent(j) }

  predicate HoldsLock(pc: Pc, i: nat, j: nat) { (HoldsOwn(pc) && j == i) || HoldsOther(pc, j) }

  // ----- steps -----

  predicate Shape(m: Machine) { |m.locks| == |m.procs| && m.initproc < |m.procs| }

  function Go(m: Machine, i: nat, pc: Pc): Machine
    requires i < |m.procs|
  {
    m.(procs := m.procs[i := m.procs[i].(pc := pc)])
  }

  function SetProc(m: Machine, i: nat, p: Proc): Machine
    requires i < |m.procs|
  {
    m.(procs := m.procs[i := p])
  }

  function Take(m: Machine, i: nat, j: nat): Machine
    requires j < |m.locks|
  {
    m.(locks := m.locks[j := i])
  }

  function Drop(m: Machine, j: nat): Machine
    requires j < |m.locks|
  {
    m.(locks := m.locks[j := NONE])
  }

  /** What wakeup does to a process: one asleep on the channel becomes runnable. */
  function WakeIf(p: Proc, chan: int): Proc {
    if p.state == SLEEPING && p.chan == chan then p.(state := RUNNABLE) else p
  }

  const FREE_PROC := Proc(UNUSED, NONE, NONE, false, Vacant)   // freeproc

  /** wait: the zombie child `k` is freed. */
  function Reaped(m: Machine, i: nat, k: nat): Machine
    requires Shape(m) && i < |m.procs| && k < |m.procs|
  {
    Drop(SetProc(Go(m, i, Elsewhere), k, FREE_PROC), k).(waitLock := NONE)
  }

  /** reparent: the child is given to init. */
  function Adopted(m: Machine, i: nat, k: nat): Machine
    requires Shape(m) && i < |m.procs| && k < |m.procs|
  {
    var m1 := Go(m, i, ReparentWake(k, 0));
    SetProc(m1, k, m1.procs[k].(parent := m.initproc))
  }

  /** wakeup(chan): entry `j`, under its lock. */
  function Roused(m: Machine, i: nat, j: nat, chan: int, pc: Pc): Machine
    requires Shape(m) && i < |m.procs| && j < |m.procs|
  {
    var m1 := Go(m, i, pc);
    Drop(SetProc(m1, j, WakeIf(m1.procs[j], chan)), j)
  }

  /** fork: allocproc has found entry `c`. */
  function Conceived(m: Machine, i: nat, c: nat): Machine
    requires i < |m.procs| && c < |m.procs|
  {
    SetProc(Go(m, i, ForkLock(c)), c, m.procs[c].(state := USED, pc := Forked(i)))
  }

  /** fork: the child gets its parent. */
  function Fathered(m: Machine, i: nat, c: nat): Machine
    requires Shape(m) && i < |m.procs| && c < |m.procs|
  {
    var m1 := Go(m, i, ForkUnlock(c));
    SetProc(m1, c, m1.procs[c].(parent := i))
  }

  /** fork: make_runnable(np). */
  function Started(m: Machine, i: nat, c: nat): Machine
    requires Shape(m) && i < |m.procs| && c < |m.procs|
  {
    var m1 := Go(m, i, Elsewhere);
    SetProc(m1, c, m1.procs[c].(state := RUNNABLE, pc := Elsewhere))
  }

  /** What the next step of process `i` waits for. */
  predicate Ready(m: Machine, i: nat)
    requires Shape(m) && i < |m.procs|
  {
    var p := m.procs[i];
    match p.pc
    case WaitLock | ExitLock => m.waitLock == NONE
    case ForkLock(c) => m.waitLock == NONE && c < |m.procs|
    case Scan(k, kids) => k < |m.procs| && m.procs[k].parent == i ==> m.locks[k] == NONE
    case Check(k) => k < |m.procs|
    case SleepLock | ZombieLock => m.locks[i] == NONE
    case SleepUnlock | SleepSet | Resumed | Reparent(_) | ZombieSet | ZombieUnlock => true
    case ReparentWake(k, j) => j < |m.procs| && j != i ==> m.locks[j] == NONE
    case ReparentWaking(k, j) => j < |m.procs|
    case WakeParent(j) => j < |m.procs| && j != i ==> m.locks[j] == NONE
    case WakingParent(j) => j < |m.procs|
    case ForkSet(c) => c < |m.procs|
    case ForkUnlock(_) => true
    case ForkRun(c) => c < |m.procs| && m.locks[c] == NONE
    case _ => false
  }

  function Next(m: Machine, i: nat): Machine
    requires Shape(m) && i < |m.procs| && Ready(m, i)
  {
    var p, n := m.procs[i], |m.procs|;
    match p.pc
    // wait
    case WaitLock => Go(m, i, Scan(0, false)).(waitLock := i)
    case Scan(k, kids) =>
      if k < n then
        if m.procs[k].parent == i then Take(Go(m, i, Check(k)), i, k) else Go(m, i, Scan(k + 1, kids))
      else if !kids || p.killed then Go(m, i, Elsewhere).(waitLock := NONE)        // returns -1
      else Go(m, i, SleepLock)
    case Check(k) =>
      if m.procs[k].state == ZOMBIE then Reaped(m, i, k)
      else Drop(Go(m, i, Scan(k + 1, true)), k)
    // sleep(p, &wait_lock)
    case SleepLock => Take(Go(m, i, SleepUnlock), i, i)
    case SleepUnlock => Go(m, i, SleepSet).(waitLock := NONE)
    case SleepSet => SetProc(m, i, p.(chan := i, state := SLEEPING, pc := Switching))
    case Resumed => Drop(SetProc(m, i, p.(chan := NONE, pc := WaitLock)), i)
    // exit
    case ExitLock => Go(m, i, Reparent(0)).(waitLock := i)
    case Reparent(k) =>
      if k < n then
        if m.procs[k].parent == i then Adopted(m, i, k) else Go(m, i, Reparent(k + 1))
      else Go(m, i, WakeParent(0))
    case ReparentWake(k, j) =>
      if j >= n then Go(m, i, Reparent(k + 1))
      else if j == i then Go(m, i, ReparentWake(k, j + 1))
      else Take(Go(m, i, ReparentWaking(k, j)), i, j)
    case ReparentWaking(k, j) => Roused(m, i, j, m.initproc, ReparentWake(k, j + 1))
    case WakeParent(j) =>
      if j >= n then Go(m, i, ZombieLock)
      else if j == i then Go(m, i, WakeParent(j + 1))
      else Take(Go(m, i, WakingParent(j)), i, j)
    case WakingParent(j) => Roused(m, i, j, p.parent, WakeParent(j + 1))
    case ZombieLock => Take(Go(m, i, ZombieSet), i, i)
    case ZombieSet => SetProc(m, i, p.(state := ZOMBIE, pc := ZombieUnlock))
    case ZombieUnlock => Go(m, i, Dying).(waitLock := NONE)
    // fork
    case ForkLock(c) => Go(m, i, ForkSet(c)).(waitLock := i)
    case ForkSet(c) => Fathered(m, i, c)
    case ForkUnlock(c) => Go(m, i, ForkRun(c)).(waitLock := NONE)
    case ForkRun(c) => Started(m, i, c)
    case _ => m
  }

  /** No lock is held here, so the timer may take the hart away. */
  predicate Preemptible(pc: Pc) { pc.Elsewhere? || pc.WaitLock? || pc.ExitLock? || pc.ForkLock? || pc.ForkRun? }

  predicate Enabled(m: Machine, e: Event) {
    && Shape(m) && e.i < |m.procs|
    && var p := m.procs[e.i];
       match e
       case Run(i) => p.state in {RUNNING, ZOMBIE} && Ready(m, i)
       case CallWait(i) => p.state == RUNNING && p.pc == Elsewhere
       case CallExit(i) => p.state == RUNNING && p.pc == Elsewhere && i != m.initproc     // "init exiting"
       case CallFork(i, c) => p.state == RUNNING && p.pc == Elsewhere && c < |m.procs| && m.procs[c].pc == Vacant
         && m.locks[c] == NONE
       case CopyoutFails(i) => p.state == RUNNING && p.pc.Check? && p.pc.k < |m.procs|
         && m.procs[p.pc.k].state == ZOMBIE
       case SleepElsewhere(i, chan) => p.state == RUNNING && p.pc == Elsewhere && m.locks[i] == NONE
         && chan >= |m.procs|
       case WakeElsewhere(i) => p.state == SLEEPING && p.chan >= |m.procs| && m.locks[i] == NONE
       case Kill(i) => m.locks[i] == NONE
       case SchedulerReleases(i) => p.pc == Switching || p.pc == Dying
       case Dispatch(i) => p.state == RUNNABLE && m.locks[i] == NONE
       case Yield(i) => p.state == RUNNING && Preemptible(p.pc) && m.locks[i] == NONE
  }

  function Do(m: Machine, e: Event): Machine
    requires Enabled(m, e)
  {
    var p := m.procs[e.i];
    match e
    case Run(i) => Next(m, i)
    case CallWait(i) => Go(m, i, WaitLock)
    case CallExit(i) => Go(m, i, ExitLock)
    case CallFork(i, c) => Conceived(m, i, c)
    case CopyoutFails(i) => Drop(Go(m, i, Elsewhere), p.pc.k).(waitLock := NONE)
    case SleepElsewhere(i, chan) => SetProc(m, i, p.(chan := chan, state := SLEEPING))
    case WakeElsewhere(i) => SetProc(m, i, p.(state := RUNNABLE))
    case Kill(i) => SetProc(m, i, Killed(p))
    case SchedulerReleases(i) => Drop(Go(m, i, if p.pc == Switching then Off else Dead), i)
    case Dispatch(i) =>
      // in sleep, the lock of the process is still held
      if p.pc == Off then Take(SetProc(m, i, p.(state := RUNNING, pc := Resumed)), i, i)
      else SetProc(m, i, p.(state := RUNNING))
    case Yield(i) => SetProc(m, i, p.(state := RUNNABLE))
  }

  predicate Runs(m: Machine, es: seq<Event>)
    decreases |es|, 0
  {
    es == [] || (Runs(m, es[..|es| - 1]) && Enabled(After(m, es[..|es| - 1]), es[|es| - 1]))
  }

  function After(m: Machine, es: seq<Event>): Machine
    requires Runs(m, es)
    decreases |es|, 1
  {
    if es == [] then m else Do(After(m, es[..|es| - 1]), es[|es| - 1])
  }

  /** One process, init, and no lock held. */
  predicate Initial(m: Machine) {
    && Shape(m) && m.waitLock == NONE
    && (forall j :: 0 <= j < |m.locks| ==> m.locks[j] == NONE)
    && (forall j :: 0 <= j < |m.procs| && j != m.initproc ==> m.procs[j] == FREE_PROC)
    && m.procs[m.initproc] == Proc(RUNNABLE, NONE, NONE, false, Elsewhere)
  }

  // ----- the invariant -----

  predicate WaitLockOk(m: Machine, i: nat)
    requires i < |m.procs|
  {
    HoldsWait(m.procs[i].pc) <==> m.waitLock == i
  }

  predicate LocksOk(m: Machine, i: nat)
    requires Shape(m) && i < |m.procs|
  {
    forall j: nat {:trigger m.locks[j]} :: j < |m.locks| ==> (HoldsLock(m.procs[i].pc, i, j) <==> m.locks[j] == i)
  }

  /** Status, channel and control point agree. */
  predicate StateOk(m: Machine, i: nat)
    requires Shape(m) && i < |m.procs|
  {
    var p := m.procs[i];
    match p.pc
    case Vacant => p.state == UNUSED && p.parent == NONE
    case Forked(f) => p.state == USED && f < |m.procs| && f != i
      && m.procs[f].pc in {ForkLock(i), ForkSet(i), ForkUnlock(i), ForkRun(i)}
    case Elsewhere => p.state in {RUNNING, RUNNABLE, SLEEPING} && (p.state == SLEEPING ==> p.chan >= |m.procs|)
    case WaitLock | ExitLock | ForkLock(_) | ForkRun(_) => p.state in {RUNNING, RUNNABLE}
    case Switching => p.state == SLEEPING && p.chan == i
    case Off => p.state in {SLEEPING, RUNNABLE} && (p.state == SLEEPING ==> p.chan == i)
    case ZombieUnlock | Dying | Dead => p.state == ZOMBIE
    case _ => p.state == RUNNING
  }

  /** A fork in progress has its entry to itself. */
  predicate ForkOk(m: Machine, i: nat)
    requires i < |m.procs|
  {
    var pc := m.procs[i].pc;
    pc.ForkLock? || pc.ForkSet? || pc.ForkUnlock? || pc.ForkRun? ==> pc.c < |m.procs| && m.procs[pc.c].pc == Forked(i)
  }

  predicate Exiting(pc: Pc) {
    pc.ExitLock? || pc.Reparent? || pc.ReparentWake? || pc.ReparentWaking? || pc.WakeParent? || pc.WakingParent?
    || pc.ZombieLock? || pc.ZombieSet?
  }

  predicate ExitOk(m: Machine, i: nat)
    requires i < |m.procs|
  {
    var pc := m.procs[i].pc;
    && (Exiting(pc) ==> i != m.initproc)
    && !HoldsOther(pc, i)
    && (pc.Check? ==> pc.k < |m.procs| && m.procs[pc.k].parent == i)
    && (pc.ReparentWaking? || pc.WakingParent? ==> pc.j < |m.procs|)
    && m.procs[i].parent != i
    && (i == m.initproc ==> m.procs[i].parent == NONE && m.procs[i].state in {SLEEPING, RUNNABLE, RUNNING})
    && (m.procs[i].parent == NONE || 0 <= m.procs[i].parent < |m.procs|)
  }

  /** Process `q` is in wait, past its scan, and will not look again until it is woken. */
  predicate Committed(m: Machine, q: int) {
    && 0 <= q < |m.procs|
    && var p := m.procs[q];
       p.pc.SleepSet? || p.pc.Switching? || (p.pc.Off? && p.state == SLEEPING)
  }

  /** The holder of wait_lock is about to wake init. */
  predicate WillWakeInit(m: Machine) {
    && 0 <= m.waitLock < |m.procs|
    && var pc := m.procs[m.waitLock].pc;
       (pc.ReparentWake? || pc.ReparentWaking?) && pc.j <= m.initproc
  }

  /** A zombie's parent is not asleep in wait, unless it is init and being woken. */
  predicate ZombieOk(m: Machine, c: nat)
    requires c < |m.procs|
  {
    m.procs[c].state == ZOMBIE && Committed(m, m.procs[c].parent) ==> m.procs[c].parent == m.initproc && WillWakeInit(m)
  }

  /** Entries the scan of wait has passed; all of them once it is over. */
  predicate Passed(pc: Pc, c: nat) { ((pc.Scan? || pc.Check?) && c < pc.k) || pc.SleepLock? || pc.SleepUnlock? }

  /** The scan of wait has missed no zombie and no child. */
  predicate ScanOk(m: Machine, i: nat)
    requires i < |m.procs|
  {
    var pc := m.procs[i].pc;
    forall c: nat {:trigger m.procs[c]} :: c < |m.procs| && Passed(pc, c) && m.procs[c].parent == i ==>
      m.procs[c].state != ZOMBIE && (pc.Scan? ==> pc.kids)
  }

  /** A wakeup that has passed its target has found it awake or woken it. */
  predicate WokenOk(m: Machine, i: nat)
    requires i < |m.procs|
  {
    var p := m.procs[i];
    && (((p.pc.WakeParent? || p.pc.WakingParent?) && p.pc.j > p.parent) || p.pc.ZombieLock? || p.pc.ZombieSet? ==>
          !Committed(m, p.parent))
    && ((p.pc.ReparentWake? || p.pc.ReparentWaking?) && p.pc.j > m.initproc ==> !Committed(m, m.initproc))
  }

  predicate LocalOk(m: Machine, i: nat)
    requires Shape(m) && i < |m.procs|
  {
    && WaitLockOk(m, i) && LocksOk(m, i) && StateOk(m, i) && ForkOk(m, i) && ExitOk(m, i)
    && ZombieOk(m, i) && ScanOk(m, i) && WokenOk(m, i)
  }

  predicate HoldersOk(m: Machine) {
    && (m.waitLock == NONE || 0 <= m.waitLock < |m.procs|)
    && forall j: nat {:trigger m.locks[j]} :: j < |m.locks| ==> m.locks[j] == NONE || 0 <= m.locks[j] < |m.procs|
  }

  ghost predicate Inv(m: Machine) {
    Shape(m) && HoldersOk(m) && forall i: nat {:trigger LocalOk(m, i)} :: i < |m.procs| ==> LocalOk(m, i)
  }

  // ----- what a step of process `i` that may also touch entry `c` has to keep -----

  /** The entry a fork in progress fills. */
  function Target(pc: Pc): int {
    match pc
    case ForkLock(c) => c
    case ForkSet(c) => c
    case ForkUnlock(c) => c
    case ForkRun(c) => c
    case _ => NONE
  }

  predicate SameFork(m: Machine, m': Machine, x: nat, i: nat, c: nat)
    requires x < |m.procs| == |m'.procs|
  {
    var pc, pc' := m.procs[x].pc, m'.procs[x].pc;
    && (Target(pc) !in {NONE, i, c} ==> Target(pc') == Target(pc))
    && (pc.Forked? && pc.parent !in {i, c} ==> pc' == pc)
  }

  /** Parents change and zombies appear only under wait_lock; no process newly commits itself
      to sleep. */
  predicate Careful(m: Machine, m': Machine, x: nat, i: nat)
    requires x < |m.procs| == |m'.procs|
  {
    && (m'.procs[x].parent != m.procs[x].parent ==> m.waitLock == i)
    && (m'.procs[x].state == ZOMBIE && m.procs[x].state != ZOMBIE ==> m.waitLock == i)
    && (Committed(m', x) ==> Committed(m, x))
  }

  predicate OwnHold(v: int, v': int, i: nat) { v' == v || (v in {NONE, i} && v' in {NONE, i}) }

  predicate Frame(m: Machine, m': Machine, i: nat, c: nat) {
    && Shape(m) && Shape(m') && |m'.procs| == |m.procs| && m'.initproc == m.initproc && i < |m.procs| && c < |m.procs|
    && (forall x: nat {:trigger m'.procs[x]} :: x < |m.procs| && x != i && x != c ==> m'.procs[x] == m.procs[x])
    && (forall j: nat {:trigger m'.locks[j]} :: j < |m.locks| ==> OwnHold(m.locks[j], m'.locks[j], i))
    && OwnHold(m.waitLock, m'.waitLock, i)
    && SameFork(m, m', i, i, c) && SameFork(m, m', c, i, c) && Careful(m, m', i, i) && Careful(m, m', c, i)
    && (WillWakeInit(m) ==> WillWakeInit(m') || !Committed(m', m.initproc))
  }

  lemma BystanderLocks(m: Machine, m': Machine, i: nat, c: nat, x: nat)
    requires Inv(m) && Frame(m, m', i, c) && x < |m.procs| && x != i && x != c
    ensures WaitLockOk(m', x) && LocksOk(m', x)
  {
    hide StateOk, ForkOk, ExitOk, ZombieOk, ScanOk, WokenOk, Careful, WillWakeInit, HoldsWait, HoldsLock;
    assert LocalOk(m, x);
    assert m'.procs[x] == m.procs[x];
  }

  lemma BystanderState(m: Machine, m': Machine, i: nat, c: nat, x: nat)
    requires Inv(m) && Frame(m, m', i, c) && x < |m.procs| && x != i && x != c
    ensures StateOk(m', x) && ForkOk(m', x) && ExitOk(m', x) && ScanOk(m', x)
  {
    hide LocksOk, ZombieOk, WokenOk, WillWakeInit, Committed;
    assert LocalOk(m, x);
    assert m'.procs[x] == m.procs[x];
  }

  lemma BystanderZombie(m: Machine, m': Machine, i: nat, c: nat, x: nat)
    requires Inv(m) && Frame(m, m', i, c) && x < |m.procs| && x != i && x != c
    ensures ZombieOk(m', x) && WokenOk(m', x)
  {
    hide LocksOk, StateOk, ForkOk, ExitOk, ScanOk, WillWakeInit;
    assert LocalOk(m, x);
    assert m'.procs[x] == m.procs[x];
  }

  lemma Bystander(m: Machine, m': Machine, i: nat, c: nat, x: nat)
    requires Inv(m) && Frame(m, m', i, c) && x < |m.procs| && x != i && x != c
    ensures LocalOk(m', x)
  {
    hide Frame, WaitLockOk, LocksOk, StateOk, ForkOk, ExitOk, ZombieOk, ScanOk, WokenOk;
    BystanderLocks(m, m', i, c, x);
    BystanderState(m, m', i, c, x);
    BystanderZombie(m, m', i, c, x);
  }

  lemma Keep(m: Machine, m': Machine, i: nat, c: nat)
    requires Inv(m) && Frame(m, m', i, c) && LocalOk(m', i) && LocalOk(m', c)
    ensures Inv(m')
  {
    hide LocalOk;
    forall x: nat | x < |m.procs|
      ensures LocalOk(m', x)
    {
      if x != i && x != c { Bystander(m, m', i, c, x); }
    }
  }

  lemma WaitLockKeeps(m: Machine, i: nat)
    requires Inv(m) && i < |m.procs| && m.procs[i].state in {RUNNING, ZOMBIE} && Ready(m, i) && m.procs[i].pc.WaitLock?
    ensures Inv(Next(m, i))
  {
    assert LocalOk(m, i);
    var c := i;
    assert LocalOk(m, c);
    Keep(m, Next(m, i), i, c);
  }

  lemma SleepLockKeeps(m: Machine, i: nat)
    requires Inv(m) && i < |m.procs| && m.procs[i].state in {RUNNING, ZOMBIE} && Ready(m, i) && m.procs[i].pc.SleepLock?
    ensures Inv(Next(m, i))
  {
    assert LocalOk(m, i);
    var c := i;
    assert LocalOk(m, c);
    Keep(m, Next(m, i), i, c);
  }

  lemma SleepSetKeeps(m: Machine, i: nat)
    requires Inv(m) && i < |m.procs| && m.procs[i].state in {RUNNING, ZOMBIE} && Ready(m, i) && m.procs[i].pc.SleepSet?
    ensures Inv(Next(m, i))
  {
    assert LocalOk(m, i);
    var c := i;
    assert LocalOk(m, c);
    Keep(m, Next(m, i), i, c);
  }

  lemma ResumedKeeps(m: Machine, i: nat)
    requires Inv(m) && i < |m.procs| && m.procs[i].state in {RUNNING, ZOMBIE} && Ready(m, i) && m.procs[i].pc.Resumed?
    ensures Inv(Next(m, i))
  {
    assert LocalOk(m, i);
    var c := i;
    assert LocalOk(m, c);
    Keep(m, Next(m, i), i, c);
  }

  lemma ExitLockKeeps(m: Machine, i: nat)
    requires Inv(m) && i < |m.procs| && m.procs[i].state in {RUNNING, ZOMBIE} && Ready(m, i) && m.procs[i].pc.ExitLock?
    ensures Inv(Next(m, i))
  {
    assert LocalOk(m, i);
    var c := i;
    assert LocalOk(m, c);
    Keep(m, Next(m, i), i, c);
  }

  lemma ZombieLockKeeps(m: Machine, i: nat)
    requires Inv(m) && i < |m.procs| && m.procs[i].state in {RUNNING, ZOMBIE} && Ready(m, i)
             && m.procs[i].pc.ZombieLock?
    ensures Inv(Next(m, i))
  {
    assert LocalOk(m, i);
    var c := i;
    assert LocalOk(m, c);
    Keep(m, Next(m, i), i, c);
  }

  lemma ZombieSetKeeps(m: Machine, i: nat)
    requires Inv(m) && i < |m.procs| && m.procs[i].state in {RUNNING, ZOMBIE} && Ready(m, i) && m.procs[i].pc.ZombieSet?
    ensures Inv(Next(m, i))
  {
    assert LocalOk(m, i);
    var c := i;
    assert LocalOk(m, c);
    Keep(m, Next(m, i), i, c);
  }

  lemma ZombieUnlockKeeps(m: Machine, i: nat)
    requires Inv(m) && i < |m.procs| && m.procs[i].state in {RUNNING, ZOMBIE} && Ready(m, i)
             && m.procs[i].pc.ZombieUnlock?
    ensures Inv(Next(m, i))
  {
    assert LocalOk(m, i);
    var c := i;
    assert LocalOk(m, c);
    Keep(m, Next(m, i), i, c);
  }

  lemma ForkSetKeeps(m: Machine, i: nat)
    requires Inv(m) && i < |m.procs| && m.procs[i].state in {RUNNING, ZOMBIE} && Ready(m, i) && m.procs[i].pc.ForkSet?
    ensures Inv(Next(m, i))
  {
    assert LocalOk(m, i);
    var c := m.procs[i].pc.c;
    assert LocalOk(m, c);
    Keep(m, Next(m, i), i, c);
  }

  lemma ForkUnlockKeeps(m: Machine, i: nat)
    requires Inv(m) && i < |m.procs| && m.procs[i].state in {RUNNING, ZOMBIE} && Ready(m, i)
             && m.procs[i].pc.ForkUnlock?
    ensures Inv(Next(m, i))
  {
    assert LocalOk(m, i);
    var c := m.procs[i].pc.c;
    assert LocalOk(m, c);
    Keep(m, Next(m, i), i, c);
  }

  lemma SleepUnlockKeeps(m: Machine, i: nat)
    requires Inv(m) && i < |m.procs| && m.procs[i].pc.SleepUnlock?
    ensures Inv(Next(m, i))
  {
    var m' := Next(m, i);
    assert LocalOk(m, i);
    forall x: nat | x < |m.procs|
      ensures LocalOk(m', x)
    {
      assert LocalOk(m, x);
    }
  }

  lemma ScanSkipKeeps(m: Machine, i: nat)
    requires Inv(m) && i < |m.procs| && m.procs[i].pc.Scan? && m.procs[i].pc.k < |m.procs|
             && m.procs[m.procs[i].pc.k].parent != i
    ensures Inv(Go(m, i, Scan(m.procs[i].pc.k + 1, m.procs[i].pc.kids)))
  {
    assert LocalOk(m, i);
    Keep(m, Go(m, i, Scan(m.procs[i].pc.k + 1, m.procs[i].pc.kids)), i, i);
  }

  lemma ScanTakeKeeps(m: Machine, i: nat)
    requires Inv(m) && i < |m.procs| && m.procs[i].pc.Scan? && m.procs[i].pc.k < |m.procs|
             && m.procs[m.procs[i].pc.k].parent == i && m.locks[m.procs[i].pc.k] == NONE
    ensures Inv(Take(Go(m, i, Check(m.procs[i].pc.k)), i, m.procs[i].pc.k))
  {
    assert LocalOk(m, i);
    Keep(m, Take(Go(m, i, Check(m.procs[i].pc.k)), i, m.procs[i].pc.k), i, i);
  }

  lemma ScanGiveUpKeeps(m: Machine, i: nat)
    requires Inv(m) && i < |m.procs| && m.procs[i].pc.Scan?
    ensures Inv(Go(m, i, Elsewhere).(waitLock := NONE))
  {
    assert LocalOk(m, i);
    Keep(m, Go(m, i, Elsewhere).(waitLock := NONE), i, i);
  }

  lemma ScanSleepKeeps(m: Machine, i: nat)
    requires Inv(m) && i < |m.procs| && m.procs[i].pc.Scan? && m.procs[i].pc.k >= |m.procs| && m.procs[i].pc.kids
    ensures Inv(Go(m, i, SleepLock))
  {
    assert LocalOk(m, i);
    Keep(m, Go(m, i, SleepLock), i, i);
  }

  lemma ReapFrame(m: Machine, i: nat)
    requires Inv(m) && i < |m.procs| && m.procs[i].pc.Check? && m.procs[i].pc.k < |m.procs|
             && m.procs[m.procs[i].pc.k].state == ZOMBIE
    ensures var c := m.procs[i].pc.k; c < |m.procs| && Frame(m, Reaped(m, i, m.procs[i].pc.k), i, c)
  {
    hide ScanOk, ZombieOk;
    assert LocalOk(m, i);
    var c := m.procs[i].pc.k;
    assert LocalOk(m, c);
  }

  lemma ReapSelf(m: Machine, i: nat)
    requires Inv(m) && i < |m.procs| && m.procs[i].pc.Check? && m.procs[i].pc.k < |m.procs|
             && m.procs[m.procs[i].pc.k].state == ZOMBIE
    ensures var c := m.procs[i].pc.k; c < |m.procs| && LocalOk(Reaped(m, i, m.procs[i].pc.k), i)
  {
    assert LocalOk(m, i);
    var c := m.procs[i].pc.k;
    assert LocalOk(m, c);
  }

  lemma ReapOther(m: Machine, i: nat)
    requires Inv(m) && i < |m.procs| && m.procs[i].pc.Check? && m.procs[i].pc.k < |m.procs|
             && m.procs[m.procs[i].pc.k].state == ZOMBIE
    ensures var c := m.procs[i].pc.k; c < |m.procs| && LocalOk(Reaped(m, i, m.procs[i].pc.k), c)
  {
    assert LocalOk(m, i);
    var c := m.procs[i].pc.k;
    assert LocalOk(m, c);
  }

  lemma ReapKeeps(m: Machine, i: nat)
    requires Inv(m) && i < |m.procs| && m.procs[i].pc.Check? && m.procs[i].pc.k < |m.procs|
             && m.procs[m.procs[i].pc.k].state == ZOMBIE
    ensures var c := m.procs[i].pc.k; c < |m.procs| && Inv(Reaped(m, i, m.procs[i].pc.k))
  {
    hide Frame, LocalOk;
    ReapFrame(m, i);
    ReapSelf(m, i);
    ReapOther(m, i);
    var c := m.procs[i].pc.k;
    Keep(m, Reaped(m, i, m.procs[i].pc.k), i, c);
  }

  lemma CheckNextKeeps(m: Machine, i: nat)
    requires Inv(m) && i < |m.procs| && m.procs[i].pc.Check? && m.procs[i].pc.k < |m.procs|
             && m.procs[m.procs[i].pc.k].state != ZOMBIE
    ensures Inv(Drop(Go(m, i, Scan(m.procs[i].pc.k + 1, true)), m.procs[i].pc.k))
  {
    assert LocalOk(m, i);
    Keep(m, Drop(Go(m, i, Scan(m.procs[i].pc.k + 1, true)), m.procs[i].pc.k), i, i);
  }

  lemma AdoptFrame(m: Machine, i: nat)
    requires Inv(m) && i < |m.procs| && m.procs[i].pc.Reparent? && m.procs[i].pc.k < |m.procs|
             && m.procs[m.procs[i].pc.k].parent == i
    ensures var c := m.procs[i].pc.k; c < |m.procs| && Frame(m, Adopted(m, i, m.procs[i].pc.k), i, c)
  {
    hide LocksOk, ScanOk, ZombieOk;
    assert LocalOk(m, i);
    var c := m.procs[i].pc.k;
    assert LocalOk(m, c);
  }

  lemma AdoptSelf(m: Machine, i: nat)
    requires Inv(m) && i < |m.procs| && m.procs[i].pc.Reparent? && m.procs[i].pc.k < |m.procs|
             && m.procs[m.procs[i].pc.k].parent == i
    ensures var c := m.procs[i].pc.k; c < |m.procs| && LocalOk(Adopted(m, i, m.procs[i].pc.k), i)
  {
    assert LocalOk(m, i);
    var c := m.procs[i].pc.k;
    assert LocalOk(m, c);
  }

  lemma AdoptOther(m: Machine, i: nat)
    requires Inv(m) && i < |m.procs| && m.procs[i].pc.Reparent? && m.procs[i].pc.k < |m.procs|
             && m.procs[m.procs[i].pc.k].parent == i
    ensures var c := m.procs[i].pc.k; c < |m.procs| && LocalOk(Adopted(m, i, m.procs[i].pc.k), c)
  {
    assert LocalOk(m, i);
    var c := m.procs[i].pc.k;
    assert LocalOk(m, c);
  }

  lemma AdoptKeeps(m: Machine, i: nat)
    requires Inv(m) && i < |m.procs| && m.procs[i].pc.Reparent? && m.procs[i].pc.k < |m.procs|
             && m.procs[m.procs[i].pc.k].parent == i
    ensures var c := m.procs[i].pc.k; c < |m.procs| && Inv(Adopted(m, i, m.procs[i].pc.k))
  {
    hide Frame, LocalOk;
    AdoptFrame(m, i);
    AdoptSelf(m, i);
    AdoptOther(m, i);
    var c := m.procs[i].pc.k;
    Keep(m, Adopted(m, i, m.procs[i].pc.k), i, c);
  }

  lemma ReparentSkipKeeps(m: Machine, i: nat)
    requires Inv(m) && i < |m.procs| && m.procs[i].pc.Reparent? && m.procs[i].pc.k < |m.procs|
    ensures Inv(Go(m, i, Reparent(m.procs[i].pc.k + 1)))
  {
    assert LocalOk(m, i);
    Keep(m, Go(m, i, Reparent(m.procs[i].pc.k + 1)), i, i);
  }

  lemma ReparentEndKeeps(m: Machine, i: nat)
    requires Inv(m) && i < |m.procs| && m.procs[i].pc.Reparent?
    ensures Inv(Go(m, i, WakeParent(0)))
  {
    assert LocalOk(m, i);
    Keep(m, Go(m, i, WakeParent(0)), i, i);
  }

  lemma InitSkipKeeps(m: Machine, i: nat)
    requires Inv(m) && i < |m.procs| && m.procs[i].pc.ReparentWake? && m.procs[i].pc.j == i
    ensures Inv(Go(m, i, ReparentWake(m.procs[i].pc.k, m.procs[i].pc.j + 1)))
  {
    assert LocalOk(m, i);
    Keep(m, Go(m, i, ReparentWake(m.procs[i].pc.k, m.procs[i].pc.j + 1)), i, i);
  }

  lemma InitTakeKeeps(m: Machine, i: nat)
    requires Inv(m) && i < |m.procs| && m.procs[i].pc.ReparentWake? && m.procs[i].pc.j < |m.procs|
             && m.locks[m.procs[i].pc.j] == NONE && m.procs[i].pc.j != i
    ensures Inv(Take(Go(m, i, ReparentWaking(m.procs[i].pc.k, m.procs[i].pc.j)), i, m.procs[i].pc.j))
  {
    assert LocalOk(m, i);
    Keep(m, Take(Go(m, i, ReparentWaking(m.procs[i].pc.k, m.procs[i].pc.j)), i, m.procs[i].pc.j), i, i);
  }

  lemma InitEndKeeps(m: Machine, i: nat)
    requires Inv(m) && i < |m.procs| && m.procs[i].pc.ReparentWake? && m.procs[i].pc.j >= |m.procs|
    ensures Inv(Go(m, i, Reparent(m.procs[i].pc.k + 1)))
  {
    assert LocalOk(m, i);
    Keep(m, Go(m, i, Reparent(m.procs[i].pc.k + 1)), i, i);
  }

  lemma ParentSkipKeeps(m: Machine, i: nat)
    requires Inv(m) && i < |m.procs| && m.procs[i].pc.WakeParent? && m.procs[i].pc.j == i
    ensures Inv(Go(m, i, WakeParent(m.procs[i].pc.j + 1)))
  {
    assert LocalOk(m, i);
    Keep(m, Go(m, i, WakeParent(m.procs[i].pc.j + 1)), i, i);
  }

  lemma ParentTakeKeeps(m: Machine, i: nat)
    requires Inv(m) && i < |m.procs| && m.procs[i].pc.WakeParent? && m.procs[i].pc.j < |m.procs|
             && m.locks[m.procs[i].pc.j] == NONE && m.procs[i].pc.j != i
    ensures Inv(Take(Go(m, i, WakingParent(m.procs[i].pc.j)), i, m.procs[i].pc.j))
  {
    assert LocalOk(m, i);
    Keep(m, Take(Go(m, i, WakingParent(m.procs[i].pc.j)), i, m.procs[i].pc.j), i, i);
  }

  lemma ParentEndKeeps(m: Machine, i: nat)
    requires Inv(m) && i < |m.procs| && m.procs[i].pc.WakeParent? && m.procs[i].pc.j >= |m.procs|
    ensures Inv(Go(m, i, ZombieLock))
  {
    assert LocalOk(m, i);
    Keep(m, Go(m, i, ZombieLock), i, i);
  }

  lemma ForkBeginFrame(m: Machine, i: nat)
    requires Inv(m) && i < |m.procs| && m.procs[i].pc.ForkLock? && m.procs[i].pc.c < |m.procs| && m.waitLock == NONE
             && m.procs[i].state == RUNNING
    ensures var c := m.procs[i].pc.c;
            && c < |m.procs|
            && Frame(m, Go(m, i, ForkSet(m.procs[i].pc.c)).(waitLock := i), i, c)
  {
    hide LocksOk, ScanOk, ZombieOk;
    assert LocalOk(m, i);
    var c := m.procs[i].pc.c;
    assert LocalOk(m, c);
  }

  lemma ForkBeginSelf(m: Machine, i: nat)
    requires Inv(m) && i < |m.procs| && m.procs[i].pc.ForkLock? && m.procs[i].pc.c < |m.procs| && m.waitLock == NONE
             && m.procs[i].state == RUNNING
    ensures var c := m.procs[i].pc.c; c < |m.procs| && LocalOk(Go(m, i, ForkSet(m.procs[i].pc.c)).(waitLock := i), i)
  {
    assert LocalOk(m, i);
    var c := m.procs[i].pc.c;
    assert LocalOk(m, c);
  }

  lemma ForkBeginOther(m: Machine, i: nat)
    requires Inv(m) && i < |m.procs| && m.procs[i].pc.ForkLock? && m.procs[i].pc.c < |m.procs| && m.waitLock == NONE
             && m.procs[i].state == RUNNING
    ensures var c := m.procs[i].pc.c; c < |m.procs| && LocalOk(Go(m, i, ForkSet(m.procs[i].pc.c)).(waitLock := i), c)
  {
    assert LocalOk(m, i);
    var c := m.procs[i].pc.c;
    assert LocalOk(m, c);
  }

  lemma ForkBeginKeeps(m: Machine, i: nat)
    requires Inv(m) && i < |m.procs| && m.procs[i].pc.ForkLock? && m.procs[i].pc.c < |m.procs| && m.waitLock == NONE
             && m.procs[i].state == RUNNING
    ensures var c := m.procs[i].pc.c; c < |m.procs| && Inv(Go(m, i, ForkSet(m.procs[i].pc.c)).(waitLock := i))
  {
    hide Frame, LocalOk;
    ForkBeginFrame(m, i);
    ForkBeginSelf(m, i);
    ForkBeginOther(m, i);
    var c := m.procs[i].pc.c;
    Keep(m, Go(m, i, ForkSet(m.procs[i].pc.c)).(waitLock := i), i, c);
  }

  lemma ForkEndFrame(m: Machine, i: nat)
    requires Inv(m) && i < |m.procs| && m.procs[i].pc.ForkRun? && m.procs[i].pc.c < |m.procs|
             && m.locks[m.procs[i].pc.c] == NONE
    ensures var c := m.procs[i].pc.c; c < |m.procs| && Frame(m, Started(m, i, m.procs[i].pc.c), i, c)
  {
    hide LocksOk, ScanOk, ZombieOk;
    assert LocalOk(m, i);
    var c := m.procs[i].pc.c;
    assert LocalOk(m, c);
  }

  lemma ForkEndSelf(m: Machine, i: nat)
    requires Inv(m) && i < |m.procs| && m.procs[i].pc.ForkRun? && m.procs[i].pc.c < |m.procs|
             && m.locks[m.procs[i].pc.c] == NONE
    ensures var c := m.procs[i].pc.c; c < |m.procs| && LocalOk(Started(m, i, m.procs[i].pc.c), i)
  {
    assert LocalOk(m, i);
    var c := m.procs[i].pc.c;
    assert LocalOk(m, c);
  }

  lemma ForkEndOther(m: Machine, i: nat)
    requires Inv(m) && i < |m.procs| && m.procs[i].pc.ForkRun? && m.procs[i].pc.c < |m.procs|
             && m.locks[m.procs[i].pc.c] == NONE
    ensures var c := m.procs[i].pc.c; c < |m.procs| && LocalOk(Started(m, i, m.procs[i].pc.c), c)
  {
    assert LocalOk(m, i);
    var c := m.procs[i].pc.c;
    assert LocalOk(m, c);
  }

  lemma ForkEndKeeps(m: Machine, i: nat)
    requires Inv(m) && i < |m.procs| && m.procs[i].pc.ForkRun? && m.procs[i].pc.c < |m.procs|
             && m.locks[m.procs[i].pc.c] == NONE
    ensures var c := m.procs[i].pc.c; c < |m.procs| && Inv(Started(m, i, m.procs[i].pc.c))
  {
    hide Frame, LocalOk;
    ForkEndFrame(m, i);
    ForkEndSelf(m, i);
    ForkEndOther(m, i);
    var c := m.procs[i].pc.c;
    Keep(m, Started(m, i, m.procs[i].pc.c), i, c);
  }

  lemma CallWaitKeeps(m: Machine, i: nat)
    requires Inv(m) && i < |m.procs| && m.procs[i].state == RUNNING && m.procs[i].pc == Elsewhere
    ensures Inv(Go(m, i, WaitLock))
  {
    assert LocalOk(m, i);
    Keep(m, Go(m, i, WaitLock), i, i);
  }

  lemma CallExitKeeps(m: Machine, i: nat)
    requires Inv(m) && i < |m.procs| && m.procs[i].state == RUNNING && m.procs[i].pc == Elsewhere && i != m.initproc
    ensures Inv(Go(m, i, ExitLock))
  {
    assert LocalOk(m, i);
    Keep(m, Go(m, i, ExitLock), i, i);
  }

  lemma CopyoutFailsKeeps(m: Machine, i: nat)
    requires Inv(m) && i < |m.procs| && m.procs[i].pc.Check? && m.procs[i].pc.k < |m.procs|
    ensures Inv(Drop(Go(m, i, Elsewhere), m.procs[i].pc.k).(waitLock := NONE))
  {
    assert LocalOk(m, i);
    Keep(m, Drop(Go(m, i, Elsewhere), m.procs[i].pc.k).(waitLock := NONE), i, i);
  }

  lemma SleepElsewhereKeeps(m: Machine, i: nat, chan: int)
    requires Inv(m) && i < |m.procs| && m.procs[i].state == RUNNING && m.procs[i].pc == Elsewhere && chan >= |m.procs|
    ensures Inv(SetProc(m, i, m.procs[i].(chan := chan, state := SLEEPING)))
  {
    assert LocalOk(m, i);
    Keep(m, SetProc(m, i, m.procs[i].(chan := chan, state := SLEEPING)), i, i);
  }

  lemma WakeElsewhereKeeps(m: Machine, i: nat)
    requires Inv(m) && i < |m.procs| && m.procs[i].state == SLEEPING && m.procs[i].chan >= |m.procs|
    ensures Inv(SetProc(m, i, m.procs[i].(state := RUNNABLE)))
  {
    assert LocalOk(m, i);
    Keep(m, SetProc(m, i, m.procs[i].(state := RUNNABLE)), i, i);
  }

  /** kill: the process is woken whatever it sleeps on. */
  function Killed(p: Proc): Proc { p.(killed := true, state := if p.state == SLEEPING then RUNNABLE else p.state) }

  lemma KillFrame(m: Machine, i: nat)
    requires Inv(m) && i < |m.procs| && m.locks[i] == NONE
    ensures Frame(m, SetProc(m, i, Killed(m.procs[i])), i, i)
  {
    hide LocksOk, ScanOk, ZombieOk;
    assert LocalOk(m, i);
  }

  lemma KillKeeps(m: Machine, i: nat)
    requires Inv(m) && i < |m.procs| && m.locks[i] == NONE
    ensures Inv(SetProc(m, i, Killed(m.procs[i])))
  {
    hide Frame;
    assert LocalOk(m, i);
    KillFrame(m, i);
    assert !HoldsOwn(m.procs[i].pc);
    Keep(m, SetProc(m, i, Killed(m.procs[i])), i, i);
  }

  lemma ReleasesFrame(m: Machine, i: nat)
    requires Inv(m) && i < |m.procs| && (m.procs[i].pc == Switching || m.procs[i].pc == Dying)
    ensures Frame(m, Drop(Go(m, i, if m.procs[i].pc == Switching then Off else Dead), i), i, i)
  {
    hide ScanOk, ZombieOk;
    assert LocalOk(m, i);
  }

  lemma ReleasesKeeps(m: Machine, i: nat)
    requires Inv(m) && i < |m.procs| && (m.procs[i].pc == Switching || m.procs[i].pc == Dying)
    ensures Inv(Drop(Go(m, i, if m.procs[i].pc == Switching then Off else Dead), i))
  {
    hide Frame;
    assert LocalOk(m, i);
    ReleasesFrame(m, i);
    Keep(m, Drop(Go(m, i, if m.procs[i].pc == Switching then Off else Dead), i), i, i);
  }

  lemma ResumeKeeps(m: Machine, i: nat)
    requires Inv(m) && i < |m.procs| && m.procs[i].state == RUNNABLE && m.procs[i].pc == Off && m.locks[i] == NONE
    ensures Inv(Take(SetProc(m, i, m.procs[i].(state := RUNNING, pc := Resumed)), i, i))
  {
    assert LocalOk(m, i);
    Keep(m, Take(SetProc(m, i, m.procs[i].(state := RUNNING, pc := Resumed)), i, i), i, i);
  }

  lemma DispatchKeeps(m: Machine, i: nat)
    requires Inv(m) && i < |m.procs| && m.procs[i].state == RUNNABLE && m.procs[i].pc != Off
    ensures Inv(SetProc(m, i, m.procs[i].(state := RUNNING)))
  {
    assert LocalOk(m, i);
    Keep(m, SetProc(m, i, m.procs[i].(state := RUNNING)), i, i);
  }

  lemma YieldKeeps(m: Machine, i: nat)
    requires Inv(m) && i < |m.procs| && m.procs[i].state == RUNNING && Preemptible(m.procs[i].pc)
    ensures Inv(SetProc(m, i, m.procs[i].(state := RUNNABLE)))
  {
    assert LocalOk(m, i);
    Keep(m, SetProc(m, i, m.procs[i].(state := RUNNABLE)), i, i);
  }

  lemma CallForkFrame(m: Machine, i: nat, c: nat)
    requires Inv(m) && i < |m.procs| && c < |m.procs| && m.procs[i].state == RUNNING && m.procs[i].pc == Elsewhere
             && m.procs[c].pc == Vacant
    ensures Frame(m, Conceived(m, i, c), i, c)
  {
    hide LocksOk, ScanOk, ZombieOk;
    assert LocalOk(m, i) && LocalOk(m, c);
  }

  lemma CallForkSelf(m: Machine, i: nat, c: nat)
    requires Inv(m) && i < |m.procs| && c < |m.procs| && m.procs[i].state == RUNNING && m.procs[i].pc == Elsewhere
             && m.procs[c].pc == Vacant
    ensures LocalOk(Conceived(m, i, c), i)
  {
    assert LocalOk(m, i) && LocalOk(m, c);
  }

  lemma CallForkOther(m: Machine, i: nat, c: nat)
    requires Inv(m) && i < |m.procs| && c < |m.procs| && m.procs[i].state == RUNNING && m.procs[i].pc == Elsewhere
             && m.procs[c].pc == Vacant
    ensures LocalOk(Conceived(m, i, c), c)
  {
    assert LocalOk(m, i) && LocalOk(m, c);
  }

  lemma CallForkKeeps(m: Machine, i: nat, c: nat)
    requires Inv(m) && i < |m.procs| && c < |m.procs| && m.procs[i].state == RUNNING && m.procs[i].pc == Elsewhere
             && m.procs[c].pc == Vacant
    ensures Inv(Conceived(m, i, c))
  {
    hide Frame, LocalOk;
    CallForkFrame(m, i, c);
    CallForkSelf(m, i, c);
    CallForkOther(m, i, c);
    Keep(m, Conceived(m, i, c), i, c);
  }

  /** Process `i` is in a wakeup of `chan` and holds the lock of entry `j`; `next` is where it
      goes on. */
  predicate Rousing(m: Machine, i: nat, j: nat, chan: int, next: Pc)
    requires Shape(m) && i < |m.procs|
  {
    var pc := m.procs[i].pc;
    && j < |m.procs|
    && ((pc.ReparentWaking? && j == pc.j && chan == m.initproc && next == ReparentWake(pc.k, j + 1))
        || (pc == WakingParent(j) && chan == m.procs[i].parent && next == WakeParent(j + 1)))
  }

  /** Its holder is not between setting its state and switching away, so is not roused too early. */
  lemma RousedFully(m: Machine, i: nat, j: nat, chan: int, next: Pc)
    requires Inv(m) && i < |m.procs| && Rousing(m, i, j, chan, next)
    ensures j != i && m.locks[j] == i && !HoldsOwn(m.procs[j].pc) && m.waitLock == i
  {
    hide StateOk, ForkOk, ZombieOk, ScanOk, WokenOk;
    assert LocalOk(m, i) && LocalOk(m, j);
    assert m.locks[j] == i;
  }

  lemma RouseFrame(m: Machine, i: nat, j: nat, chan: int, next: Pc)
    requires Inv(m) && i < |m.procs| && Rousing(m, i, j, chan, next)
    ensures Frame(m, Roused(m, i, j, chan, next), i, j)
  {
    hide ScanOk, ZombieOk, LocksOk, ForkOk;
    RousedFully(m, i, j, chan, next);
    assert LocalOk(m, i) && LocalOk(m, j);
  }

  lemma RouseLocks(m: Machine, i: nat, j: nat, chan: int, next: Pc, x: nat)
    requires Inv(m) && i < |m.procs| && Rousing(m, i, j, chan, next) && (x == i || x == j)
    ensures WaitLockOk(Roused(m, i, j, chan, next), x) && LocksOk(Roused(m, i, j, chan, next), x)
  {
    hide StateOk, ForkOk, ExitOk, ZombieOk, ScanOk, WokenOk;
    RousedFully(m, i, j, chan, next);
    assert LocalOk(m, i) && LocalOk(m, j);
  }

  lemma RouseState(m: Machine, i: nat, j: nat, chan: int, next: Pc, x: nat)
    requires Inv(m) && i < |m.procs| && Rousing(m, i, j, chan, next) && (x == i || x == j)
    ensures StateOk(Roused(m, i, j, chan, next), x)
  {
    hide WaitLockOk, LocksOk, ZombieOk, ScanOk, WokenOk, ExitOk, HoldersOk;
    RousedFully(m, i, j, chan, next);
    assert LocalOk(m, x);
  }

  lemma RouseFamily(m: Machine, i: nat, j: nat, chan: int, next: Pc, x: nat)
    requires Inv(m) && i < |m.procs| && Rousing(m, i, j, chan, next) && (x == i || x == j)
    ensures var m' := Roused(m, i, j, chan, next); ForkOk(m', x) && ExitOk(m', x)
  {
    hide WaitLockOk, LocksOk, ZombieOk, ScanOk, WokenOk, HoldersOk;
    RousedFully(m, i, j, chan, next);
    assert LocalOk(m, i) && LocalOk(m, j);
  }

  /** A wakeup that comes to its target leaves it awake. */
  lemma RouseWatch(m: Machine, i: nat, j: nat, chan: int, next: Pc, x: nat)
    requires Inv(m) && i < |m.procs| && Rousing(m, i, j, chan, next) && (x == i || x == j)
    ensures var m' := Roused(m, i, j, chan, next); ZombieOk(m', x) && ScanOk(m', x) && WokenOk(m', x)
  {
    hide WaitLockOk, LocksOk, ForkOk;
    RousedFully(m, i, j, chan, next);
    assert LocalOk(m, i) && LocalOk(m, j);
  }

  lemma RouseLocal(m: Machine, i: nat, j: nat, chan: int, next: Pc, x: nat)
    requires Inv(m) && i < |m.procs| && Rousing(m, i, j, chan, next) && (x == i || x == j)
    ensures LocalOk(Roused(m, i, j, chan, next), x)
  {
    hide WaitLockOk, LocksOk, StateOk, ForkOk, ExitOk, ZombieOk, ScanOk, WokenOk;
    RouseLocks(m, i, j, chan, next, x);
    RouseState(m, i, j, chan, next, x);
    RouseFamily(m, i, j, chan, next, x);
    RouseWatch(m, i, j, chan, next, x);
  }

  lemma RouseKeeps(m: Machine, i: nat, j: nat, chan: int, next: Pc)
    requires Inv(m) && i < |m.procs| && Rousing(m, i, j, chan, next)
    ensures Inv(Roused(m, i, j, chan, next))
  {
    hide Frame, LocalOk;
    RouseFrame(m, i, j, chan, next);
    RouseLocal(m, i, j, chan, next, i);
    RouseLocal(m, i, j, chan, next, j);
    Keep(m, Roused(m, i, j, chan, next), i, j);
  }

  lemma RunKeeps(m: Machine, i: nat)
    requires Inv(m) && Enabled(m, Run(i))
    ensures Inv(Next(m, i))
  {
    hide Inv, LocalOk;
    var pc := m.procs[i].pc;
    if pc.ForkLock? || pc.ForkRun? { RunningFork(m, i); }
    match pc
    case WaitLock => WaitLockKeeps(m, i);
    case Scan(k, kids) =>
      if k < |m.procs| {
        if m.procs[k].parent == i { ScanTakeKeeps(m, i); } else { ScanSkipKeeps(m, i); }
      } else if !kids || m.procs[i].killed {
        ScanGiveUpKeeps(m, i);
      } else {
        ScanSleepKeeps(m, i);
      }
    case Check(k) => if m.procs[k].state == ZOMBIE { ReapKeeps(m, i); } else { CheckNextKeeps(m, i); }
    case SleepLock => SleepLockKeeps(m, i);
    case SleepUnlock => SleepUnlockKeeps(m, i);
    case SleepSet => SleepSetKeeps(m, i);
    case Resumed => ResumedKeeps(m, i);
    case ExitLock => ExitLockKeeps(m, i);
    case Reparent(k) =>
      if k < |m.procs| {
        if m.procs[k].parent == i { AdoptKeeps(m, i); } else { ReparentSkipKeeps(m, i); }
      } else {
        ReparentEndKeeps(m, i);
      }
    case ReparentWake(k, j) =>
      if j >= |m.procs| { InitEndKeeps(m, i); } else if j == i { InitSkipKeeps(m, i); } else { InitTakeKeeps(m, i); }
    case ReparentWaking(k, j) => RouseKeeps(m, i, j, m.initproc, ReparentWake(k, j + 1));
    case WakeParent(j) =>
      if j >= |m.procs| {
        ParentEndKeeps(m, i);
      } else if j == i {
        ParentSkipKeeps(m, i);
      } else {
        ParentTakeKeeps(m, i);
      }
    case WakingParent(j) => RouseKeeps(m, i, j, m.procs[i].parent, WakeParent(j + 1));
    case ZombieLock => ZombieLockKeeps(m, i);
    case ZombieSet => ZombieSetKeeps(m, i);
    case ZombieUnlock => ZombieUnlockKeeps(m, i);
    case ForkLock(c) => ForkBeginKeeps(m, i);
    case ForkSet(c) => ForkSetKeeps(m, i);
    case ForkUnlock(c) => ForkUnlockKeeps(m, i);
    case ForkRun(c) => ForkEndKeeps(m, i);
  }

  lemma RunningFork(m: Machine, i: nat)
    requires Inv(m) && i < |m.procs| && m.procs[i].state in {RUNNING, ZOMBIE}
             && (m.procs[i].pc.ForkLock? || m.procs[i].pc.ForkRun?)
    ensures m.procs[i].state == RUNNING
  {
    assert LocalOk(m, i);
  }

  lemma InvStep(m: Machine, e: Event)
    requires Inv(m) && Enabled(m, e)
    ensures Inv(Do(m, e))
  {
    hide Inv, Next, Ready;
    var i := e.i;
    match e
    case Run(_) => RunKeeps(m, i);
    case CallWait(_) => CallWaitKeeps(m, i);
    case CallExit(_) => CallExitKeeps(m, i);
    case CallFork(_, c) => CallForkKeeps(m, i, c);
    case CopyoutFails(_) => CopyoutFailsKeeps(m, i);
    case SleepElsewhere(_, chan) => SleepElsewhereKeeps(m, i, chan);
    case WakeElsewhere(_) => WakeElsewhereKeeps(m, i);
    case Kill(_) => KillKeeps(m, i);
    case SchedulerReleases(_) => ReleasesKeeps(m, i);
    case Dispatch(_) => if m.procs[i].pc == Off { ResumeKeeps(m, i); } else { DispatchKeeps(m, i); }
    case Yield(_) => YieldKeeps(m, i);
  }

  // ----- whole runs -----

  lemma InitialInv(m: Machine)
    requires Initial(m)
    ensures Inv(m)
  {
    forall i: nat | i < |m.procs|
      ensures LocalOk(m, i)
    {
    }
  }

  lemma {:induction false} Reachable(m: Machine, es: seq<Event>)
    requires Initial(m) && Runs(m, es)
    ensures Inv(After(m, es))
  {
    hide Inv, Enabled, Do;
    if es == [] {
      InitialInv(m);
    } else {
      Reachable(m, es[..|es| - 1]);
      InvStep(After(m, es[..|es| - 1]), es[|es| - 1]);
    }
  }

  /** Process `q` sleeps in wait. */
  predicate AsleepInWait(m: Machine, q: int) {
    0 <= q < |m.procs| && m.procs[q].state == SLEEPING && m.procs[q].chan == q
  }

  /** No lost wakeup: over every interleaving of any number of processes, no reachable state
      has wait_lock free and the parent of a zombie asleep in wait, although exit wakes the
      parent before it becomes a zombie.  While wait_lock is held there can be such a state
      only inside reparent, and then the holder is on its way to wake init. */
  lemma NoLostWakeup(m: Machine, es: seq<Event>, c: nat)
    requires Initial(m) && Runs(m, es) && c < |After(m, es).procs|
    ensures var s := After(m, es);
            s.procs[c].state == ZOMBIE && AsleepInWait(s, s.procs[c].parent) ==>
              s.waitLock != NONE && s.procs[c].parent == s.initproc && WillWakeInit(s)
  {
    hide Runs, After;
    Reachable(m, es);
    var s := After(m, es);
    assert LocalOk(s, c);
    var q := s.procs[c].parent;
    if AsleepInWait(s, q) {
      assert LocalOk(s, q);
    }
  }

  /** wait gives up only when its caller has no children or has been killed. */
  lemma WaitFailsOnlyWithoutChildren(m: Machine, es: seq<Event>, i: nat, c: nat)
    requires Initial(m) && Runs(m, es) && c < |After(m, es).procs|
    requires var s := After(m, es);
             && Enabled(s, Run(i)) && s.procs[i].pc.Scan? && s.procs[i].pc.k >= |s.procs|
             && Do(s, Run(i)).procs[i].pc == Elsewhere && !s.procs[i].killed
    ensures After(m, es).procs[c].parent != i
  {
    hide Runs, After;
    Reachable(m, es);
    assert LocalOk(After(m, es), i);
  }

  /** When wait goes to sleep it has missed no zombie. */
  lemma WaitSleepsOnlyWithoutZombies(m: Machine, es: seq<Event>, i: nat, c: nat)
    requires Initial(m) && Runs(m, es) && c < |After(m, es).procs| && i < |After(m, es).procs|
    requires After(m, es).procs[i].pc.SleepUnlock?
    ensures var s := After(m, es); s.procs[c].parent == i ==> s.procs[c].state != ZOMBIE
  {
    hide Runs, After;
    Reachable(m, es);
    assert LocalOk(After(m, es), i);
  }

  /** kill marks the process, which does not go on sleeping, and does nothing else. */
  lemma KillWakes(m: Machine, i: nat)
    requires Enabled(m, Kill(i))
    ensures var p, m' := m.procs[i], Do(m, Kill(i));
            && m'.procs == m.procs[i := p.(killed := true, state := m'.procs[i].state)] && m' == m.(procs := m'.procs)
            && m'.procs[i].state == if p.state == SLEEPING then RUNNABLE else p.state
  {
  }
}
